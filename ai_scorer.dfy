/** The resume scorer: a rule-based score of a parsed resume against a
    job's requirements (skills 50, experience 30, education 10, projects or
    certifications 10), and the AI path that reads a labelled text answer
    and falls back to the rules when the call fails. */
module AiScorer {
  import opened Wrappers
  import opened Strings
  import opened Seqs
  import ResumeParser

  /** What the scorer reads from a job posting. */
  datatype JobRequirements = JobRequirements(
    skillsRequired: Option<seq<string>>,
    experienceRequired: Option<string>)

  /** The explanation of a score: the rule-based summary ("Matched m/n
      required skills. y years experience. Education: e."), kept as its
      parts, or the text the AI gave. */
  datatype Explanation =
    | Summary(matchedCount: nat, requiredCount: nat, years: real, education: string)
    | Text(text: string)

  datatype ScoreResult = ScoreResult(
    score: real,
    matchedSkills: seq<string>,
    missingSkills: seq<string>,
    explanation: Explanation)

  // ---------------------------------------------------------------------
  // Experience requirement

  /** The years a requirement such as "3+ years" asks for: the first run of
      digits read as a number; 0 when the requirement is missing, empty or
      has no digit. */
  function ParseExperienceRequirement(exp: Option<string>): (r: nat)
    ensures exp.None? ==> r == 0
    ensures exp.Some? && (forall k :: 0 <= k < |exp.value| ==> !IsDigit(exp.value[k])) ==> r == 0
    ensures exp.Some? ==> forall i :: 0 <= i < |exp.value| && IsDigit(exp.value[i]) && (forall k :: 0 <= k < i ==> !IsDigit(exp.value[k]))
                            ==> r == DigitsValue(exp.value[i..DigitRunEnd(exp.value, i)])
  {
    if exp.None? || exp.value == "" then 0
    else
      var s := exp.value;
      var i := FirstIndex(s, IsDigit);
      assert forall j :: 0 <= j < |s| && IsDigit(s[j]) && (forall k :: 0 <= k < j ==> !IsDigit(s[k])) ==> j == i by {
        forall j | 0 <= j < |s| && IsDigit(s[j]) && (forall k :: 0 <= k < j ==> !IsDigit(s[k])) {
          FirstIndexIs(s, IsDigit, j);
        }
      }
      if i == |s| then 0 else DigitsValue(s[i..DigitRunEnd(s, i)])
  }

  /** A run of digits that ends at `m` ends at `m`. */
  lemma {:induction false} DigitRunEndAt(s: string, i: nat, m: nat)
    requires i <= m <= |s|
    requires forall k :: i <= k < m ==> IsDigit(s[k])
    requires m == |s| || !IsDigit(s[m])
    ensures DigitRunEnd(s, i) == m
    decreases m - i
  {
    if i < m {
      DigitRunEndAt(s, i + 1, m);
    }
  }

  /** A requirement written as a number followed by text that does not
      start with a digit ("5 years", "5+ years") asks for that number. */
  lemma RequirementReadsNumber(n: nat, rest: string)
    requires rest == "" || !IsDigit(rest[0])
    ensures ParseExperienceRequirement(Some(NatToString(n) + rest)) == n
  {
    var digits := NatToString(n);
    var s := digits + rest;
    assert IsDigit(s[0]) && s[0] == digits[0];
    DigitRunEndAt(s, 0, |digits|);
    assert s[0..|digits|] == digits;
    NatToStringRoundTrip(n);
  }

  // ---------------------------------------------------------------------
  // Rule-based score

  /** A required skill is matched when it occurs inside some candidate skill. */
  predicate SkillMatched(skill: string, candidates: seq<string>) {
    exists k :: 0 <= k < |candidates| && Contains(candidates[k], skill)
  }

  /** The required skills the candidate has, in required order. */
  function MatchedSkills(required: seq<string>, candidates: seq<string>): seq<string> {
    FilterMap(required, s => SkillMatched(s, candidates), s => s)
  }

  /** The required skills the candidate lacks, in required order. */
  function MissingSkills(required: seq<string>, candidates: seq<string>): seq<string> {
    FilterMap(required, s => !SkillMatched(s, candidates), s => s)
  }

  /** 50 points scaled by the share of required skills matched; the full 50
      when nothing is required. */
  function SkillsPoints(matched: nat, required: nat): (r: real)
    requires matched <= required
    ensures 0.0 <= r <= 50.0
    ensures required == 0 || matched == required <==> r == 50.0
  {
    if required == 0 then 50.0
    else
      assert matched as real <= required as real;
      (matched as real / required as real) * 50.0
  }

  /** 30 points for meeting the experience requirement, 20 for 70% of it,
      10 for half of it, none below; 30 when nothing is required. */
  function ExperiencePoints(candidate: real, required: nat): (r: real)
    ensures r == 0.0 || r == 10.0 || r == 20.0 || r == 30.0
  {
    if required == 0 then 30.0
    else if candidate >= required as real then 30.0
    else if candidate >= required as real * 0.7 then 20.0
    else if candidate >= required as real * 0.5 then 10.0
    else 0.0
  }

  /** More experience never earns fewer points. */
  lemma ExperiencePointsMonotone(a: real, b: real, required: nat)
    requires a <= b
    ensures ExperiencePoints(a, required) <= ExperiencePoints(b, required)
  {
  }

  /** Meeting the requirement earns the full 30, and only meeting it (or
      having nothing required) does. */
  lemma ExperienceFullIffMet(candidate: real, required: nat)
    ensures ExperiencePoints(candidate, required) == 30.0 <==> required == 0 || candidate >= required as real
  {
  }

  /** 10 points for a bachelor's degree or higher, read case-insensitively. */
  function EducationPoints(level: string): (r: real)
    ensures r == 0.0 || r == 10.0
  {
    var l := Lower(level);
    if l == "phd" || l == "masters" || l == "bachelors" then 10.0 else 0.0
  }

  /** Every level the parser reports except "Unknown" earns the education
      points. */
  lemma ParsedLevelsEarnEducationPoints(text: string)
    ensures EducationPoints(ResumeParser.ExtractEducation(text)) == 10.0 <==> ResumeParser.ExtractEducation(text) != "Unknown"
  {
    var e := ResumeParser.ExtractEducation(text);
    if e == "PhD" {
      assert Lower(e) == "phd";
    } else if e == "Masters" {
      assert Lower(e) == "masters";
    } else if e == "Bachelors" {
      assert Lower(e) == "bachelors";
    } else {
      assert Lower(e) == "unknown";
    }
  }

  /** 10 points when there is at least one project or certification. */
  function ExtrasPoints(projects: seq<string>, certifications: seq<string>): (r: real)
    ensures r == 0.0 || r == 10.0
    ensures r == 10.0 <==> projects != [] || certifications != []
  {
    if projects != [] || certifications != [] then 10.0 else 0.0
  }

  /** The rule-based result: required skills are lowercased and split into
      matched and missing against the lowercased candidate skills, the four
      parts are added, and the sum is capped at 100. */
  function RuleBasedResult(parsed: ResumeParser.ParsedResume, job: JobRequirements): (r: ScoreResult)
    ensures |r.matchedSkills| + |r.missingSkills| == |RequiredSkills(job)|
    ensures 0.0 <= r.score <= 100.0
    ensures r.score == SkillsPoints(|r.matchedSkills|, |RequiredSkills(job)|)
                       + ExperiencePoints(parsed.experienceYears, ParseExperienceRequirement(job.experienceRequired))
                       + EducationPoints(parsed.educationLevel)
                       + ExtrasPoints(parsed.projects, parsed.certifications)
    ensures r.explanation == Summary(|r.matchedSkills|, |RequiredSkills(job)|, parsed.experienceYears, parsed.educationLevel)
  {
    var candidates := LowerAll(parsed.skills);
    var required := RequiredSkills(job);
    var matched := MatchedSkills(required, candidates);
    var missing := MissingSkills(required, candidates);
    PartitionLength(required, candidates);
    var total := SkillsPoints(|matched|, |required|)
                 + ExperiencePoints(parsed.experienceYears, ParseExperienceRequirement(job.experienceRequired))
                 + EducationPoints(parsed.educationLevel)
                 + ExtrasPoints(parsed.projects, parsed.certifications);
    ScoreResult(Cap(total), matched, missing,
                Summary(|matched|, |required|, parsed.experienceYears, parsed.educationLevel))
  }

  /** The job's required skills, lowercased; none when the job lists none. */
  function RequiredSkills(job: JobRequirements): (r: seq<string>)
    ensures |r| == |job.skillsRequired.GetOr([])|
  {
    LowerAll(job.skillsRequired.GetOr([]))
  }

  /** Every required skill goes to exactly one of the two lists, so their
      lengths add up to the number of required skills. */
  lemma {:induction false} PartitionLength(required: seq<string>, candidates: seq<string>)
    ensures |MatchedSkills(required, candidates)| + |MissingSkills(required, candidates)| == |required|
    decreases |required|
  {
    if required != [] {
      var init := required[..|required| - 1];
      PartitionLength(init, candidates);
      assert required == init + [required[|required| - 1]];
      FilterMapSnoc(init, required[|required| - 1], s => SkillMatched(s, candidates), s => s);
      FilterMapSnoc(init, required[|required| - 1], s => !SkillMatched(s, candidates), s => s);
    }
  }

  /** The scoring of `_rule_based_score`: the required skills split into
      matched and missing, then the other three parts. */
  method RuleBasedScore(parsed: ResumeParser.ParsedResume, job: JobRequirements) returns (r: ScoreResult)
    ensures r == RuleBasedResult(parsed, job)
  {
    var candidates := LowerAll(parsed.skills);
    var required := RequiredSkills(job);
    var matched, missing := PartitionSkills(required, candidates);
    var score := 0.0;
    if required != [] {
      score := score + SkillsPoints(|matched|, |required|);
    } else {
      score := score + 50.0;
    }
    score := score + ExperiencePoints(parsed.experienceYears, ParseExperienceRequirement(job.experienceRequired));
    score := score + EducationPoints(parsed.educationLevel);
    score := score + ExtrasPoints(parsed.projects, parsed.certifications);
    r := ScoreResult(Cap(score), matched, missing,
                     Summary(|matched|, |required|, parsed.experienceYears, parsed.educationLevel));
  }

  /** The skills loop of `_rule_based_score`: one pass over the required
      skills, appending each to `matched` or to `missing`. */
  method PartitionSkills(required: seq<string>, candidates: seq<string>) returns (matched: seq<string>, missing: seq<string>)
    ensures matched == MatchedSkills(required, candidates)
    ensures missing == MissingSkills(required, candidates)
  {
    matched, missing := [], [];
    var i := 0;
    while i < |required|
      invariant 0 <= i <= |required|
      invariant matched == MatchedSkills(required[..i], candidates)
      invariant missing == MissingSkills(required[..i], candidates)
    {
      var skill := required[i];
      FilterMapSnoc(required[..i], skill, s => SkillMatched(s, candidates), s => s);
      FilterMapSnoc(required[..i], skill, s => !SkillMatched(s, candidates), s => s);
      if SkillMatched(skill, candidates) {
        matched := matched + [skill];
      } else {
        missing := missing + [skill];
      }
      assert required[..i + 1] == required[..i] + [skill];
      i := i + 1;
    }
    assert required[..i] == required;
  }

  /** `[s.lower() for s in xs]` */
  function LowerAll(xs: seq<string>): (r: seq<string>)
    ensures |r| == |xs|
    ensures forall i :: 0 <= i < |xs| ==> r[i] == Lower(xs[i])
  {
    seq(|xs|, i requires 0 <= i < |xs| => Lower(xs[i]))
  }

  /** `min(score, 100)` */
  function Cap(score: real): (r: real)
    ensures r <= 100.0 && r <= score
    ensures r == score || r == 100.0
  {
    if score <= 100.0 then score else 100.0
  }

  /** Each required skill lands in exactly one of the two lists: matched
      when some candidate skill contains it, missing otherwise. */
  lemma SkillsPartition(required: seq<string>, candidates: seq<string>)
    ensures forall s :: s in MatchedSkills(required, candidates) ==> s in required && SkillMatched(s, candidates)
    ensures forall s :: s in MissingSkills(required, candidates) ==> s in required && !SkillMatched(s, candidates)
    ensures forall s :: s in required ==> s in MatchedSkills(required, candidates) || s in MissingSkills(required, candidates)
  {
    FilterMapMembers(required, s => SkillMatched(s, candidates), s => s);
    FilterMapMembers(required, s => !SkillMatched(s, candidates), s => s);
    forall s | s in required
      ensures s in MatchedSkills(required, candidates) || s in MissingSkills(required, candidates)
    {
      var i :| 0 <= i < |required| && required[i] == s;
    }
  }

  /** The four parts never add up to more than 100, so the cap never
      changes the score; the score lies in [0, 100]. */
  lemma CapNeverBinds(skills: real, experience: real, education: real, extras: real)
    requires 0.0 <= skills <= 50.0
    requires experience == 0.0 || experience == 10.0 || experience == 20.0 || experience == 30.0
    requires education == 0.0 || education == 10.0
    requires extras == 0.0 || extras == 10.0
    ensures Cap(skills + experience + education + extras) == skills + experience + education + extras
    ensures 0.0 <= skills + experience + education + extras <= 100.0
  {
  }

  /** With no required skills the skills part is the full 50 and both
      lists are empty. */
  lemma NoRequirementsFullSkillsPoints(candidates: seq<string>)
    ensures MatchedSkills([], candidates) == [] && MissingSkills([], candidates) == []
    ensures SkillsPoints(0, 0) == 50.0
  {
  }

  // ---------------------------------------------------------------------
  // The AI path

  /** The value on the first line of `text` that starts with `key`: that
      line with every occurrence of `key` removed, stripped. `None` when no
      line starts with `key`. */
  function ExtractField(text: string, key: string): (r: Option<string>)
    requires key != ""
    ensures var lines := Lines(text);
      r.None? <==> forall i :: 0 <= i < |lines| ==> !StartsWith(lines[i], key)
    ensures var lines := Lines(text);
      forall i :: 0 <= i < |lines| && StartsWith(lines[i], key) && (forall j :: 0 <= j < i ==> !StartsWith(lines[j], key))
                  ==> r == Some(Strip(RemoveAll(lines[i], key)))
  {
    var lines := Lines(text);
    var i := FirstWithPrefix(lines, key);
    assert forall k :: 0 <= k < |lines| && StartsWith(lines[k], key) && (forall j :: 0 <= j < k ==> !StartsWith(lines[j], key))
                       ==> k == i;
    if i < |lines| then
      Some(Strip(RemoveAll(lines[i], key)))
    else None
  }

  /** The index of the first line that starts with `key`, or `|lines|`. */
  function FirstWithPrefix(lines: seq<string>, key: string): (i: nat)
    ensures i <= |lines|
    ensures forall j :: 0 <= j < i ==> !StartsWith(lines[j], key)
    ensures i < |lines| ==> StartsWith(lines[i], key)
  {
    if lines == [] then 0
    else if StartsWith(lines[0], key) then 0
    else 1 + FirstWithPrefix(lines[1..], key)
  }

  /** A line the model writes as `KEY value` is read back as `value` when it
      is the first line: the writer and `ExtractField` are inverse. */
  lemma ExtractFieldReadsWrittenLine(key: string, value: string, rest: string)
    requires key != "" && '\n' !in key && '\n' !in value
    requires !Contains(" " + value, key)
    requires value == "" || (!IsSpace(value[0]) && !IsSpace(value[|value| - 1]))
    ensures ExtractField(key + " " + value + "\n" + rest, key) == Some(value)
  {
    var line := key + " " + value;
    var text := line + "\n" + rest;
    var lines := Lines(text);
    assert text[|line|] == '\n';
    var i := IndexOfChar(text, '\n');
    assert i == |line|;
    assert text[..i] == line;
    assert lines[0] == line;
    assert StartsWith(line, key);
    assert line[..|key|] == key;
    assert OccursAt(line, key, 0);
    assert Find(line, key) == 0;
    assert line[|key|..] == " " + value;
    assert RemoveAll(line, key) == " " + value;
    StripPadded(value);
  }

  /** One leading space is stripped from a value that has no outer space. */
  lemma StripPadded(value: string)
    requires value == "" || (!IsSpace(value[0]) && !IsSpace(value[|value| - 1]))
    ensures Strip(" " + value) == value
  {
    assert (" " + value)[1..] == value;
    assert LStrip(" " + value) == LStrip(value);
    assert LStrip(value) == value;
  }

  /** `_extract_value(text, key, float, default)`: the first field with the
      key, converted by `toFloat`; the default when there is no such line or
      the conversion fails (later lines are not consulted). */
  function ExtractNumber(text: string, key: string, default: real, toFloat: string -> Option<real>): (r: real)
    requires key != ""
    ensures ExtractField(text, key).None? ==> r == default
    ensures ExtractField(text, key).Some? && toFloat(ExtractField(text, key).value).None? ==> r == default
    ensures ExtractField(text, key).Some? && toFloat(ExtractField(text, key).value).Some?
            ==> r == toFloat(ExtractField(text, key).value).value
  {
    match ExtractField(text, key)
    case None => default
    case Some(v) => toFloat(v).GetOr(default)
  }

  /** `[s.strip() for s in value.split(',') if s.strip()]` */
  function CommaList(value: string): (r: seq<string>)
    ensures forall k :: 0 <= k < |r| ==> r[k] != "" && ',' !in r[k]
  {
    var pieces := Split(value, ',');
    var r := FilterMap(pieces, ResumeParser.NonBlank, Strip);
    assert forall k :: 0 <= k < |r| ==> r[k] != "" && ',' !in r[k] by {
      FilterMapMembers(pieces, ResumeParser.NonBlank, Strip);
      forall k | 0 <= k < |r| ensures r[k] != "" && ',' !in r[k] {
        assert r[k] in r;
        var i :| 0 <= i < |pieces| && Strip(pieces[i]) != "" && r[k] == Strip(pieces[i]);
        StripIsSlice(pieces[i]);
      }
    }
    r
  }

  /** Entries written comma-separated read back as the non-blank ones,
      stripped, in their order; entries already stripped and non-blank
      read back unchanged. */
  lemma CommaListReadsJoined(entries: seq<string>)
    requires |entries| >= 1
    requires forall i :: 0 <= i < |entries| ==> ',' !in entries[i]
    ensures CommaList(Join(entries, ',')) == FilterMap(entries, ResumeParser.NonBlank, Strip)
    ensures (forall i :: 0 <= i < |entries| ==> entries[i] != "" && Strip(entries[i]) == entries[i]) ==>
              CommaList(Join(entries, ',')) == entries
  {
    SplitOfJoin(entries, ',');
    if forall i :: 0 <= i < |entries| ==> entries[i] != "" && Strip(entries[i]) == entries[i] {
      FilterMapFixed(entries, ResumeParser.NonBlank, Strip);
    }
  }

  /** The result of the AI path for the text `answer` the model gave. */
  function AiResult(answer: string, toFloat: string -> Option<real>): (r: ScoreResult)
    ensures 0.0 <= r.score <= 100.0
    ensures ExtractField(answer, "SCORE:").None? ==> r.score == 50.0
    ensures forall k :: 0 <= k < |r.matchedSkills| ==> r.matchedSkills[k] != "" && ',' !in r.matchedSkills[k]
    ensures forall k :: 0 <= k < |r.missingSkills| ==> r.missingSkills[k] != "" && ',' !in r.missingSkills[k]
    ensures r.explanation.Text?
  {
    var score := ExtractNumber(answer, "SCORE:", 50.0, toFloat);
    var matched := ExtractField(answer, "MATCHED:").GetOr("");
    var missing := ExtractField(answer, "MISSING:").GetOr("");
    var explanation := ExtractField(answer, "EXPLANATION:").GetOr("AI scoring completed");
    ScoreResult(Clamp(score), CommaList(matched), CommaList(missing), Text(Strip(explanation)))
  }

  /** `min(max(score, 0), 100)` */
  function Clamp(score: real): (r: real)
    ensures 0.0 <= r <= 100.0
    ensures 0.0 <= score <= 100.0 ==> r == score
    ensures score < 0.0 ==> r == 0.0
    ensures score > 100.0 ==> r == 100.0
  {
    if score < 0.0 then 0.0 else if score > 100.0 then 100.0 else score
  }

  /** Scores a parsed resume. With the AI enabled, `aiAnswer` is the text
      the model returned, or `None` when the call raised; a failed call
      falls back to the rule-based result. */
  function ScoreResume(useAi: bool, parsed: ResumeParser.ParsedResume, job: JobRequirements,
                       aiAnswer: Option<string>, toFloat: string -> Option<real>): (r: ScoreResult)
    ensures 0.0 <= r.score <= 100.0
    ensures useAi && aiAnswer.Some? ==> r.explanation.Text?
    ensures !useAi || aiAnswer.None? ==> r == RuleBasedResult(parsed, job)
  {
    if useAi && aiAnswer.Some? then AiResult(aiAnswer.value, toFloat)
    else RuleBasedResult(parsed, job)
  }
}
