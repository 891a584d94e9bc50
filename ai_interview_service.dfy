/** The interview service: the cleaning of the AI's reply before it is read
    as JSON (code fences, the array's brackets), the numbering of generated
    questions, and the overall assessment of a finished interview, with its
    totals and the fallback used when the AI cannot give one. The AI call
    and the JSON reader are given: an AI reply is `None` when the call
    raises, a reader answers `None` when the text does not parse. */
module InterviewService {
  import opened Wrappers
  import opened Strings

  const FENCE := "```"
  const JSON_FENCE := "```json"

  /** The points the AI made about one answer. */
  datatype AnswerDetails = AnswerDetails(
    coveredPoints: seq<string>,
    missedPoints: seq<string>,
    strengths: seq<string>,
    improvements: seq<string>)

  /** An interview question as stored: what the AI generated (`question`,
      `category`, `difficulty`, `expected_points`, `max_score`), the id the
      service gives it, and what answering and analysis add. An absent key
      is `None`. */
  datatype Question = Question(
    id: int,
    text: string,
    category: Option<string>,
    difficulty: Option<string>,
    expectedPoints: Option<seq<string>>,
    maxScore: Option<real>,
    answer: Option<string>,
    answeredAt: Option<string>,
    score: Option<real>,
    feedback: Option<string>,
    details: Option<AnswerDetails>)

  /** What the JSON reader makes of the cleaned question reply. */
  datatype QuestionsJson = QuestionList(items: seq<Question>) | NotAList

  /** The object the AI returns about one answer; an absent key is `None`. */
  datatype AnswerAnalysis = AnswerAnalysis(
    score: Option<real>,
    feedback: Option<string>,
    coveredPoints: Option<seq<string>>,
    missedPoints: Option<seq<string>>,
    strengths: Option<seq<string>>,
    improvements: Option<seq<string>>)

  /** The object the AI returns about the whole interview; an absent key
      is `None`. Its other keys are passed through and not modelled. */
  datatype AiVerdict = AiVerdict(
    percentage: Option<real>,
    overallScore: Option<real>,
    recommendation: Option<string>,
    summary: Option<string>)

  /** The summary of an assessment: the AI's text, or the fallback's
      "Score: total/max (percentage%)" line, kept as its numbers. */
  datatype Summary = Written(text: string) | ScoreLine(total: real, max: real, percentage: real)

  /** The overall assessment of an interview. */
  datatype OverallAnalysis = OverallAnalysis(
    totalScore: real,
    maxPossible: real,
    questionsAnalyzed: nat,
    percentage: Option<real>,
    overallScore: Option<real>,
    recommendation: Option<string>,
    summary: Option<Summary>,
    fromAi: bool)

  // ---------------------------------------------------------------------
  // Cleaning the question reply

  /** Removes a Markdown code block: the text after the first "```json" up
      to the next "```", or else the text between the first two "```". */
  function FenceContent(c: string): (r: string)
    ensures Contains(c, FENCE) ==> !Contains(r, FENCE)
    ensures !Contains(c, FENCE) ==> r == c
  {
    if Contains(c, JSON_FENCE) then
      assert Contains(c, FENCE) by {
        var i := Find(c, JSON_FENCE);
        assert c[i..i + 3] == c[i..i + 7][..3];
        assert OccursAt(c, FENCE, i);
      }
      UpToFirstAvoids(SecondPiece(c, JSON_FENCE), FENCE);
      UpToFirst(SecondPiece(c, JSON_FENCE), FENCE)
    else if Contains(c, FENCE) then
      UpToFirstAvoids(SecondPiece(c, FENCE), FENCE);
      UpToFirst(SecondPiece(c, FENCE), FENCE)
    else c
  }

  /** A reply fenced as "```json", then the body, then "```" and any text
      that does not start with a backtick, is cleaned to the body, as long
      as the body holds no "```" and does not end with a backtick. */
  lemma JsonFenceContent(body: string, tail: string)
    requires !Contains(body, FENCE) && !EndsWith(body, "`")
    requires tail == [] || tail[0] != '`'
    ensures FenceContent(JSON_FENCE + body + FENCE + tail) == body
  {
    var a := body + FENCE + tail;
    var s := JSON_FENCE + body + FENCE + tail;
    assert s == JSON_FENCE + a;
    JsonFenceOpens(a);
    ClosingPiece(body, tail);
    FenceEndsBody(body, UpToFirst(a, JSON_FENCE));
    assert FenceContent(s) == UpToFirst(SecondPiece(s, JSON_FENCE), FENCE);
  }

  /** A reply with no "```json" and a plain fence around the body is
      cleaned to the body: the text between the first two "```", when
      neither the text before the fence nor the body holds "```" or ends
      with a backtick. */
  lemma PlainFenceContent(pre: string, body: string, tail: string)
    requires !Contains(pre, FENCE) && !EndsWith(pre, "`")
    requires !Contains(body, FENCE) && !EndsWith(body, "`")
    requires !Contains(pre + FENCE + body + FENCE + tail, JSON_FENCE)
    ensures FenceContent(pre + FENCE + body + FENCE + tail) == body
  {
    var a := body + FENCE + tail;
    var c := pre + FENCE + body + FENCE + tail;
    assert c == pre + FENCE + a;
    PlainFenceOpens(pre, a);
    assert a[..|body| + 3] == body + FENCE;
    FenceEndsBody(body, a);
    assert SecondPiece(c, FENCE) == body;
  }

  /** After a first "```" that starts right after `pre`, the text after
      the first "```" is the rest. */
  lemma PlainFenceOpens(pre: string, a: string)
    requires !Contains(pre, FENCE) && !EndsWith(pre, "`")
    ensures Contains(pre + FENCE + a, FENCE)
    ensures AfterFirst(pre + FENCE + a, FENCE) == a
  {
    var c := pre + FENCE + a;
    assert c == pre + (FENCE + a);
    NoFenceInBody(pre, FENCE + a);
    assert c[|pre|..|pre| + 3] == FENCE;
    FindIs(c, FENCE, |pre|);
    assert c[|pre| + 3..] == a;
  }

  /** A text that starts with "```json" holds it, and the text after its
      first occurrence is the rest. */
  lemma JsonFenceOpens(a: string)
    ensures Contains(JSON_FENCE + a, JSON_FENCE)
    ensures AfterFirst(JSON_FENCE + a, JSON_FENCE) == a
  {
    var s := JSON_FENCE + a;
    assert s[0..7] == JSON_FENCE;
    FindIs(s, JSON_FENCE, 0);
    assert s[7..] == a;
  }

  /** Cut at its first "```json", the body, the closing fence and the rest
      give the body alone or the body followed by the closing fence. */
  lemma ClosingPiece(body: string, tail: string)
    requires !Contains(body, FENCE) && !EndsWith(body, "`")
    requires tail == [] || tail[0] != '`'
    ensures var piece := UpToFirst(body + FENCE + tail, JSON_FENCE);
            piece == body || (|piece| >= |body| + 3 && piece[..|body| + 3] == body + FENCE)
  {
    var a := body + FENCE + tail;
    NoFenceInBody(body, FENCE + tail);
    NoJsonFenceInClosing(body, tail);
    assert a == body + (FENCE + tail);
    NextJsonFence(a, |body|);
    var f := Find(a, JSON_FENCE);
    if f >= |body| + 3 {
      assert a[..f][..|body| + 3] == a[..|body| + 3] == body + FENCE;
    }
  }

  /** When no "```" starts before `n` and no "```json" starts at `n + 1`
      or `n + 2`, the first "```json" starts at `n` or from `n + 3` on. */
  lemma NextJsonFence(a: string, n: nat)
    requires forall k :: 0 <= k < n ==> !OccursAt(a, FENCE, k)
    requires !OccursAt(a, JSON_FENCE, n + 1) && !OccursAt(a, JSON_FENCE, n + 2)
    ensures var f := Find(a, JSON_FENCE);
            f < 0 || f == n || f >= n + 3
  {
    var f := Find(a, JSON_FENCE);
    if f >= 0 {
      assert a[f..f + 3] == a[f..f + 7][..3];
      assert OccursAt(a, FENCE, f);
    }
  }

  /** A "```json" cannot start one or two characters into the closing
      fence when the text after the fence does not start with a backtick. */
  lemma NoJsonFenceInClosing(body: string, tail: string)
    requires tail == [] || tail[0] != '`'
    ensures !OccursAt(body + FENCE + tail, JSON_FENCE, |body| + 1)
    ensures !OccursAt(body + FENCE + tail, JSON_FENCE, |body| + 2)
  {
    var a := body + FENCE + tail;
    if |body| + 8 <= |a| {
      assert a[|body| + 1..|body| + 8][2] == a[|body| + 3] == tail[0];
    }
    if |body| + 9 <= |a| {
      assert a[|body| + 2..|body| + 9][1] == a[|body| + 3] == tail[0];
    }
  }

  /** The first "```" of a text that is the body alone, or the body
      followed by "```", is where the body ends. */
  lemma FenceEndsBody(body: string, piece: string)
    requires !Contains(body, FENCE) && !EndsWith(body, "`")
    requires piece == body || (|piece| >= |body| + 3 && piece[..|body| + 3] == body + FENCE)
    ensures UpToFirst(piece, FENCE) == body
  {
    if piece != body {
      NoFenceInBody(body, piece[|body|..]);
      assert piece == body + piece[|body|..];
      assert piece[|body|..|body| + 3] == FENCE;
      FindIs(piece, FENCE, |body|);
      assert piece[..|body|] == body;
    }
  }

  /** In `body + rest`, no "```" starts inside `body` when `body` holds
      none and does not end with a backtick. */
  lemma NoFenceInBody(body: string, rest: string)
    requires !Contains(body, FENCE) && !EndsWith(body, "`")
    ensures forall k :: 0 <= k < |body| ==> !OccursAt(body + rest, FENCE, k)
  {
    var a := body + rest;
    forall k | 0 <= k < |body| ensures !OccursAt(a, FENCE, k) {
      if k + 3 <= |body| {
        assert a[k..k + 3] == body[k..k + 3];
        assert !OccursAt(body, FENCE, k);
      } else {
        assert body[|body| - 1..] != "`";
        assert a[|body| - 1] == body[|body| - 1] != '`';
        assert k + 3 <= |a| ==> a[k..k + 3][|body| - 1 - k] == a[|body| - 1];
        assert FENCE[|body| - 1 - k] == '`';
      }
    }
  }

  /** From the first '[' to the last ']', inclusive, when both occur; an
      empty text when the last ']' comes before the first '['. */
  function BracketCut(c: string): (r: string)
    ensures |r| <= |c|
  {
    if Contains(c, "[") && Contains(c, "]") then
      var start := Find(c, "[");
      var end := RFind(c, "]") + 1;
      if start <= end then c[start..end] else ""
    else c
  }

  /** Text around a JSON array is cut away: with no '[' before the array
      and no ']' after it, the array is what remains. */
  lemma BracketCutOfArray(pre: string, mid: string, post: string)
    requires '[' !in pre && ']' !in post
    ensures BracketCut(pre + "[" + mid + "]" + post) == "[" + mid + "]"
  {
    var c := pre + "[" + mid + "]" + post;
    var e := |pre| + 1 + |mid|;
    assert c[|pre|..|pre| + 1] == "[";
    forall k | 0 <= k < |pre| ensures !OccursAt(c, "[", k) {
      assert c[k] == pre[k];
    }
    FindIs(c, "[", |pre|);
    assert c[e..e + 1] == "]";
    forall k | e < k ensures !OccursAt(c, "]", k) {
      if k < |c| {
        assert c[k..k + 1] == [c[k]];
        assert c[k] == post[k - e - 1];
      }
    }
    assert OccursAt(c, "]", e);
    RFindIs(c, "]", e);
    assert c[|pre|..e + 1] == "[" + mid + "]";
  }

  /** Cutting a second time changes nothing. */
  lemma BracketCutIdempotent(c: string)
    ensures BracketCut(BracketCut(c)) == BracketCut(c)
  {
    var r := BracketCut(c);
    if Contains(c, "[") && Contains(c, "]") {
      var start := Find(c, "[");
      var last := RFind(c, "]");
      if start <= last + 1 && r != "" {
        assert r[0] == c[start] == '[';
        assert r[|r| - 1] == c[last] == ']';
        assert r == "" + "[" + r[1..|r| - 1] + "]" + "";
        BracketCutOfArray("", r[1..|r| - 1], "");
      } else {
        assert r == "";
      }
    }
  }

  /** The text handed to the JSON reader, from the reply of the AI call
      (which strips it): stripped again, the code block taken out,
      stripped, and cut to the array's brackets. */
  function CleanQuestionReply(reply: string): string {
    BracketCut(Strip(FenceContent(Strip(reply))))
  }

  // ---------------------------------------------------------------------
  // Generating questions

  /** Gives the questions the ids 1..n in order and clears their answer and
      score; every other field is kept. */
  method NumberQuestions(qs: seq<Question>) returns (r: seq<Question>)
    ensures |r| == |qs|
    ensures forall i :: 0 <= i < |qs| ==> r[i] == qs[i].(id := i + 1, answer := None, score := None)
  {
    r := qs;
    var i := 0;
    while i < |r|
      invariant 0 <= i <= |r| == |qs|
      invariant forall k :: 0 <= k < i ==> r[k] == qs[k].(id := k + 1, answer := None, score := None)
      invariant forall k :: i <= k < |r| ==> r[k] == qs[k]
    {
      r := r[i := r[i].(id := i + 1, answer := None, score := None)];
      i := i + 1;
    }
  }

  /** `generate_interview_questions` after the AI call: the reply is
      cleaned and read; a failed call, a failed read and a value that is not
      a list all raise (`None`); otherwise the questions come back numbered
      1..n, unanswered and unscored. */
  method GenerateQuestions(reply: Option<string>, readJson: string -> Option<QuestionsJson>)
    returns (r: Option<seq<Question>>)
    ensures r.Some? <==> reply.Some? && readJson(CleanQuestionReply(reply.value)).Some?
                         && readJson(CleanQuestionReply(reply.value)).value.QuestionList?
    ensures r.Some? ==>
              var items := readJson(CleanQuestionReply(reply.value)).value.items;
              && |r.value| == |items|
              && forall i :: 0 <= i < |items| ==>
                   && r.value[i].id == i + 1
                   && r.value[i].answer.None? && r.value[i].score.None?
                   && r.value[i] == items[i].(id := i + 1, answer := None, score := None)
  {
    if reply.None? {
      return None;
    }
    var parsed := readJson(CleanQuestionReply(reply.value));
    if parsed.None? || parsed.value.NotAList? {
      return None;
    }
    var numbered := NumberQuestions(parsed.value.items);
    r := Some(numbered);
  }

  // ---------------------------------------------------------------------
  // Reading an analysis reply

  /** The fences of an analysis reply: a leading "```json" is dropped, then
      a leading "```", then a trailing "```", and the rest is stripped. */
  function StripReplyFences(c: string): (r: string)
    ensures |r| <= |c|
  {
    var c1 := if StartsWith(c, JSON_FENCE) then c[7..] else c;
    var c2 := if StartsWith(c1, FENCE) then c1[3..] else c1;
    var c3 := if EndsWith(c2, FENCE) then c2[..|c2| - 3] else c2;
    Strip(c3)
  }

  /** A reply fenced as "```json" ... "```" reads as its stripped body. */
  lemma StripReplyFencesOfBlock(body: string)
    requires !StartsWith(body, "`")
    ensures StripReplyFences(JSON_FENCE + body + FENCE) == Strip(body)
  {
    var c := JSON_FENCE + body + FENCE;
    var c1 := body + FENCE;
    assert c[..7] == JSON_FENCE;
    assert c[7..] == c1;
    if body == [] {
      assert c1 == FENCE;
    } else {
      assert c1[0] == body[0];
      assert !StartsWith(c1, FENCE);
      assert c1[|c1| - 3..] == FENCE;
      assert c1[..|c1| - 3] == body;
    }
  }

  /** A reply with no fence at either end reads as itself, stripped. */
  lemma StripReplyFencesUnfenced(body: string)
    requires !StartsWith(body, FENCE) && !EndsWith(body, FENCE)
    ensures StripReplyFences(body) == Strip(body)
  {
    assert !StartsWith(body, JSON_FENCE) by {
      if |body| >= 7 {
        assert body[..3] == body[..7][..3];
      }
    }
  }

  /** `analyze_answer` after the AI call: the fence-stripped reply read as
      JSON; a failed call or read raises (`None`). */
  function AnalyzeAnswer(reply: Option<string>, readJson: string -> Option<AnswerAnalysis>): (r: Option<AnswerAnalysis>)
    ensures r.Some? <==> reply.Some? && readJson(StripReplyFences(reply.value)).Some?
  {
    if reply.None? then None else readJson(StripReplyFences(reply.value))
  }

  // ---------------------------------------------------------------------
  // The overall assessment

  /** `q.get('score', 0)` */
  function ScoreOf(q: Question): real {
    q.score.GetOr(0.0)
  }

  /** `q.get('max_score', 20)` */
  function MaxScoreOf(q: Question): real {
    q.maxScore.GetOr(20.0)
  }

  /** The sum of the scores, an absent score counting 0. */
  function TotalScore(qs: seq<Question>): real {
    if qs == [] then 0.0 else TotalScore(qs[..|qs| - 1]) + ScoreOf(qs[|qs| - 1])
  }

  /** The sum of the maximum scores, an absent maximum counting 20. */
  function MaxPossible(qs: seq<Question>): real {
    if qs == [] then 0.0 else MaxPossible(qs[..|qs| - 1]) + MaxScoreOf(qs[|qs| - 1])
  }

  /** `total / max * 100`, or 0 when the maximum is not positive. */
  function Percentage(qs: seq<Question>): (r: real)
    ensures MaxPossible(qs) <= 0.0 ==> r == 0.0
  {
    var max := MaxPossible(qs);
    if max > 0.0 then TotalScore(qs) / max * 100.0 else 0.0
  }

  /** Every score is between 0 and the question's maximum. */
  predicate ScoresWithinMax(qs: seq<Question>) {
    forall i :: 0 <= i < |qs| ==> 0.0 <= ScoreOf(qs[i]) <= MaxScoreOf(qs[i])
  }

  lemma {:induction false} TotalWithinMax(qs: seq<Question>)
    requires ScoresWithinMax(qs)
    ensures 0.0 <= TotalScore(qs) <= MaxPossible(qs)
  {
    if qs != [] {
      var init := qs[..|qs| - 1];
      assert ScoresWithinMax(init) by {
        forall i | 0 <= i < |init| ensures 0.0 <= ScoreOf(init[i]) <= MaxScoreOf(init[i]) {
          assert init[i] == qs[i];
        }
      }
      TotalWithinMax(init);
    }
  }

  /** When every score is within its question's maximum, the percentage is
      between 0 and 100. */
  lemma PercentageWithinRange(qs: seq<Question>)
    requires ScoresWithinMax(qs)
    ensures 0.0 <= Percentage(qs) <= 100.0
  {
    TotalWithinMax(qs);
    var total, max := TotalScore(qs), MaxPossible(qs);
    if max > 0.0 {
      assert total / max <= 1.0 by {
        assert total / max * max == total;
      }
    }
  }

  /** The recommendation of the fallback: only "MAYBE" and "NO_HIRE". */
  function FallbackRecommendation(percentage: real): (r: string)
    ensures r == "MAYBE" <==> percentage >= 50.0
    ensures r == "MAYBE" || r == "NO_HIRE"
  {
    if percentage >= 50.0 then "MAYBE" else "NO_HIRE"
  }

  /** The assessment returned when the AI call or the reading of its reply
      fails. */
  function FallbackAnalysis(qs: seq<Question>): (r: OverallAnalysis)
    ensures r.overallScore == Some(r.totalScore)
    ensures r.percentage == Some(Percentage(qs))
    ensures r.recommendation == Some(FallbackRecommendation(Percentage(qs)))
    ensures !r.fromAi
  {
    var total, max, pct := TotalScore(qs), MaxPossible(qs), Percentage(qs);
    OverallAnalysis(total, max, |qs|, Some(pct), Some(total), Some(FallbackRecommendation(pct)),
                    Some(ScoreLine(total, max, pct)), false)
  }

  /** `analyze_complete_interview` after the AI call: the totals are always
      the computed ones; the percentage, overall score, recommendation and
      summary are the AI's when its reply reads as an object, and the
      fallback's otherwise. */
  function AnalyzeCompleteInterview(qs: seq<Question>, reply: Option<string>, readJson: string -> Option<AiVerdict>)
    : (r: OverallAnalysis)
    ensures r.totalScore == TotalScore(qs) && r.maxPossible == MaxPossible(qs) && r.questionsAnalyzed == |qs|
    ensures r.fromAi <==> reply.Some? && readJson(StripReplyFences(reply.value)).Some?
    ensures r.fromAi ==>
              var v := readJson(StripReplyFences(reply.value)).value;
              r.percentage == v.percentage && r.recommendation == v.recommendation
              && r.overallScore == v.overallScore
    ensures !r.fromAi ==> r == FallbackAnalysis(qs)
  {
    var verdict := if reply.None? then None else readJson(StripReplyFences(reply.value));
    match verdict
    case None => FallbackAnalysis(qs)
    case Some(v) =>
      OverallAnalysis(TotalScore(qs), MaxPossible(qs), |qs|, v.percentage, v.overallScore, v.recommendation,
                      if v.summary.None? then None else Some(Written(v.summary.value)), true)
  }

  /** Without the AI, a candidate whose scores are within their maxima gets
      "MAYBE" exactly when at least half of the points were scored, and the
      overall score is the total. */
  lemma FallbackVerdict(qs: seq<Question>)
    requires ScoresWithinMax(qs) && MaxPossible(qs) > 0.0
    ensures var r := FallbackAnalysis(qs);
            && r.overallScore == Some(TotalScore(qs))
            && (r.recommendation == Some("MAYBE") <==> TotalScore(qs) * 2.0 >= MaxPossible(qs))
            && (r.recommendation == Some("MAYBE") || r.recommendation == Some("NO_HIRE"))
  {
    var total, max := TotalScore(qs), MaxPossible(qs);
    assert total / max * max == total;
    assert Percentage(qs) >= 50.0 <==> total * 2.0 >= max by {
      assert Percentage(qs) == total / max * 100.0;
      HalfOfMax(total, max);
    }
  }

  lemma HalfOfMax(total: real, max: real)
    requires max > 0.0
    ensures total / max * 100.0 >= 50.0 <==> total * 2.0 >= max
  {
    var q := total / max;
    assert q * max == total;
    if q * 100.0 >= 50.0 {
      assert q >= 0.5;
      assert q * max >= 0.5 * max;
    } else {
      assert q < 0.5;
      assert q * max < 0.5 * max;
    }
  }
}
