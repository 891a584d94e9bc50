/** The AI-interview routes for one interview: the candidate's access check
    with its failed-attempt limit and device binding, question generation,
    answering and completion, the security log fed by the candidate's
    browser, and the recruiter's views. The interview row, the cache entries
    kept for it and its security log are the fields of one object; the cache
    may be absent, and then none of its checks run. Cache entries do not
    expire in this model. */
module AiInterviews {
  import opened Wrappers
  import opened Strings
  import opened Seqs
  import opened Ordering
  import opened InterviewService

  /** A point in time: its place in time, and its ISO-8601 text. */
  datatype Instant = Instant(order: int, iso: string)

  /** The resume row behind the interview. */
  datatype Candidate = Candidate(email: Option<string>, name: Option<string>)

  /** One entry of `ai_responses`. */
  datatype Response = Response(questionId: int, answer: Option<string>, score: real)

  /** The AI-interview fields of the interview row. */
  datatype Interview = Interview(
    accessCode: Option<string>,
    questions: Option<seq<Question>>,
    status: Option<string>,
    notes: Option<string>,
    responses: Option<seq<Response>>,
    analysis: Option<OverallAnalysis>,
    aiScore: Option<real>,
    aiFeedback: Option<Summary>,
    completedAt: Option<string>)

  /** The cached session of a verified candidate. */
  datatype Session = Session(
    email: string,
    ipAddress: string,
    verifiedAt: string,
    violations: int,
    lastActivity: Option<string>,
    lastEvent: Option<string>)

  /** The cache entries kept for the interview: failed access attempts per
      IP address, the bound device's address, the session, the violation
      gauge and the review flag. */
  datatype Cache = Cache(
    attempts: map<string, int>,
    device: Option<string>,
    session: Option<Session>,
    violations: Option<int>,
    flag: Option<string>)

  const EMPTY_CACHE := Cache(map[], None, None, None, None)

  /** A row of the security log. */
  datatype SecurityEvent = SecurityEvent(
    eventType: string,
    timestamp: Instant,
    ipAddress: string,
    userAgent: Option<string>,
    violationCount: int,
    metadata: map<string, string>,
    autoSubmitted: bool)

  /** The event types that flag an interview for review. */
  const CRITICAL_EVENTS: seq<string> :=
    ["devtools_opened", "auto_submit_timeout", "auto_submit_idle", "ip_address_changed", "multi_device_detected"]

  predicate IsCritical(eventType: string) {
    eventType in CRITICAL_EVENTS
  }

  // ---------------------------------------------------------------------
  // Access check

  datatype AccessOutcome =
    | MissingCredentials
    | TooManyAttempts
    | CandidateNotFound
    | AccessFailed
    | InvalidEmail
    | InvalidCode
    | AccessVerified(candidateName: Option<string>)

  /** The failed attempts counted for `ip`; none counted is 0. */
  function Failures(cache: Cache, ip: string): int {
    if ip in cache.attempts then cache.attempts[ip] else 0
  }

  /** The answer of `verify_access` to the normalised email and code.
      `blocked` says that the cache counts five or more failures for the
      caller's address. A candidate row without an email makes the check
      raise. */
  function AccessAnswer(email: string, code: string, blocked: bool, candidate: Option<Candidate>,
                        accessCode: Option<string>): AccessOutcome {
    if email == "" || code == "" then MissingCredentials
    else if blocked then TooManyAttempts
    else if candidate.None? then CandidateNotFound
    else if candidate.value.email.None? then AccessFailed
    else if Lower(Strip(candidate.value.email.value)) != email then InvalidEmail
    else if accessCode.None? || accessCode.value == "" || accessCode.value != code then InvalidCode
    else AccessVerified(candidate.value.name)
  }

  /** Access is granted exactly when both credentials are given, the address
      is not blocked, the email matches the candidate's up to case and
      surrounding whitespace, and the code is the interview's. A blocked
      address is refused before any credential is looked at. */
  lemma AccessGranted(email: string, code: string, blocked: bool, candidate: Option<Candidate>,
                      accessCode: Option<string>)
    ensures AccessAnswer(email, code, blocked, candidate, accessCode).AccessVerified? <==>
              && email != "" && code != "" && !blocked
              && candidate.Some? && candidate.value.email.Some?
              && Lower(Strip(candidate.value.email.value)) == email
              && accessCode == Some(code)
    ensures email != "" && code != "" && blocked ==>
              AccessAnswer(email, code, blocked, candidate, accessCode) == TooManyAttempts
  {
  }

  /** The credentials as the route reads them: the email trimmed and
      lowercased, the code trimmed and uppercased. A code typed in lower
      case with spaces around it is the code. */
  lemma CodeNormalised(code: string, pad: string)
    requires forall i :: 0 <= i < |pad| ==> IsSpace(pad[i])
    requires code != [] && !IsSpace(code[0]) && !IsSpace(code[|code| - 1])
    ensures Upper(Strip(pad + Lower(code) + pad)) == Upper(code)
  {
    var l := Lower(code);
    var s := pad + l + pad;
    assert !IsSpace(l[0]) && !IsSpace(l[|l| - 1]) by {
      NotSpaceLower(code[0]);
      NotSpaceLower(code[|code| - 1]);
    }
    PaddedStrip(pad, l);
    forall i | 0 <= i < |code| ensures UpperChar(LowerChar(code[i])) == UpperChar(code[i]) {
    }
  }

  lemma NotSpaceLower(c: char)
    requires !IsSpace(c)
    ensures !IsSpace(LowerChar(c))
  {
  }

  /** Stripping `pad + t + pad` gives `t` when `pad` is all whitespace and
      `t` neither starts nor ends with whitespace. */
  lemma PaddedStrip(pad: string, t: string)
    requires forall i :: 0 <= i < |pad| ==> IsSpace(pad[i])
    requires t != [] && !IsSpace(t[0]) && !IsSpace(t[|t| - 1])
    ensures Strip(pad + t + pad) == t
  {
    var s := pad + t + pad;
    assert s[|pad|] == t[0];
    var l := LStrip(s);
    assert l == t + pad by {
      assert l == s[|s| - |l|..];
    }
    assert l[|t| - 1] == t[|t| - 1];
    var r := RStrip(l);
    assert r == l[..|r|];
  }

  /** A successful check from a new address while another address is bound
      to the interview. */
  predicate DeviceMoved(device: Option<string>, ip: string) {
    device.Some? && device.value != "" && device.value != ip
  }

  /** The log entry of a detected device switch. */
  function MultiDeviceEvent(originalIp: string, ip: string, now: Instant): (e: SecurityEvent)
    ensures IsCritical(e.eventType) && !e.autoSubmitted
  {
    SecurityEvent("multi_device_detected", now, ip, None, 0, map["original_ip" := originalIp, "new_ip" := ip], false)
  }

  // ---------------------------------------------------------------------
  // Answering and completing

  /** A question counts as answered when its answer is neither absent nor empty. */
  predicate Answered(q: Question) {
    q.answer.Some? && q.answer.value != ""
  }

  /** A question counts as scored when its score is neither absent nor 0. */
  predicate Scored(q: Question) {
    q.score.Some? && q.score.value != 0.0
  }

  /** The ids of the unanswered questions, in question order. */
  function UnansweredIds(qs: seq<Question>): (r: seq<int>)
    ensures r == [] <==> forall i :: 0 <= i < |qs| ==> Answered(qs[i])
  {
    var keep := (q: Question) => !Answered(q);
    var id := (q: Question) => q.id;
    FilterMapMembers(qs, keep, id);
    var r := FilterMap(qs, keep, id);
    assert r != [] ==> r[0] in r;
    r
  }

  /** The first index holding a question with id `id`, or `|qs|`. */
  function IdIndex(qs: seq<Question>, id: int): (i: nat)
    ensures i <= |qs|
    ensures i < |qs| ==> qs[i].id == id
    ensures forall k :: 0 <= k < i ==> qs[k].id != id
  {
    if qs == [] then 0 else if qs[0].id == id then 0 else 1 + IdIndex(qs[1..], id)
  }

  /** The ids are 1..n in order, as the service numbers them. */
  predicate IdsNumbered(qs: seq<Question>) {
    forall i :: 0 <= i < |qs| ==> qs[i].id == i + 1
  }

  /** In numbered questions, id `k` is found at index `k - 1` when
      `1 <= k <= n`, and any other id is not found. */
  lemma NumberedIdIndex(qs: seq<Question>, id: int)
    requires IdsNumbered(qs)
    ensures 1 <= id <= |qs| ==> IdIndex(qs, id) == id - 1
    ensures id < 1 || id > |qs| ==> IdIndex(qs, id) == |qs|
  {
    if 1 <= id <= |qs| {
      IdIndexIs(qs, id, id - 1);
    } else {
      IdIndexIs(qs, id, |qs|);
    }
  }

  /** The question after the analysis step of `complete_interview`: a
      scored question is kept; otherwise the AI's score, feedback and points
      are copied in, or, when the analysis raises, the score becomes 0 and
      the feedback "Analysis unavailable". */
  function Reviewed(q: Question, ask: Question -> Option<string>, read: string -> Option<AnswerAnalysis>): (r: Question)
    ensures r.score.Some?
    ensures Scored(q) ==> r == q
    ensures r.id == q.id && r.text == q.text && r.answer == q.answer && r.maxScore == q.maxScore
    ensures !Scored(q) && AnalyzeAnswer(ask(q), read).None? ==>
              r == q.(score := Some(0.0), feedback := Some("Analysis unavailable"))
  {
    if Scored(q) then q
    else
      match AnalyzeAnswer(ask(q), read)
      case None => q.(score := Some(0.0), feedback := Some("Analysis unavailable"))
      case Some(a) =>
        q.(score := Some(a.score.GetOr(0.0)), feedback := Some(a.feedback.GetOr("")),
           details := Some(AnswerDetails(a.coveredPoints.GetOr([]), a.missedPoints.GetOr([]),
                                         a.strengths.GetOr([]), a.improvements.GetOr([]))))
  }

  /** `ai_responses`: one entry per question, in order. */
  function Responses(qs: seq<Question>): (r: seq<Response>)
    ensures |r| == |qs|
    ensures forall i :: 0 <= i < |qs| ==> r[i] == Response(qs[i].id, qs[i].answer, ScoreOf(qs[i]))
  {
    seq(|qs|, i requires 0 <= i < |qs| => Response(qs[i].id, qs[i].answer, ScoreOf(qs[i])))
  }

  /** The analysis loop of `complete_interview`. */
  method ReviewAll(qs: seq<Question>, ask: Question -> Option<string>, read: string -> Option<AnswerAnalysis>)
    returns (r: seq<Question>)
    ensures |r| == |qs|
    ensures forall i :: 0 <= i < |qs| ==> r[i] == Reviewed(qs[i], ask, read)
  {
    r := qs;
    var i := 0;
    while i < |r|
      invariant 0 <= i <= |r| == |qs|
      invariant forall k :: 0 <= k < i ==> r[k] == Reviewed(qs[k], ask, read)
      invariant forall k :: i <= k < |r| ==> r[k] == qs[k]
    {
      var q := r[i];
      if !Scored(q) {
        var analysis := AnalyzeAnswer(ask(q), read);
        if analysis.Some? {
          var a := analysis.value;
          q := q.(score := Some(a.score.GetOr(0.0)), feedback := Some(a.feedback.GetOr("")),
                  details := Some(AnswerDetails(a.coveredPoints.GetOr([]), a.missedPoints.GetOr([]),
                                                a.strengths.GetOr([]), a.improvements.GetOr([]))));
        } else {
          q := q.(score := Some(0.0), feedback := Some("Analysis unavailable"));
        }
      }
      r := r[i := q];
      i := i + 1;
    }
  }

  // ---------------------------------------------------------------------
  // Activity log

  /** The candidate's session was opened from an address other than the
      one now reporting. */
  predicate IpChanged(session: Option<Session>, ip: string) {
    session.Some? && session.value.ipAddress != "" && session.value.ipAddress != ip
  }

  /** The type under which an event is logged: a report from an address
      other than the session's is logged as "ip_address_changed". */
  function LoggedType(eventType: string, session: Option<Session>, ip: string): (t: string)
    ensures IpChanged(session, ip) ==> t == "ip_address_changed" && IsCritical(t)
    ensures !IpChanged(session, ip) ==> t == eventType
  {
    if IpChanged(session, ip) then "ip_address_changed" else eventType
  }

  /** The metadata logged with an event: an address change adds both
      addresses. */
  function LoggedMetadata(metadata: map<string, string>, session: Option<Session>, ip: string): (m: map<string, string>)
    ensures !IpChanged(session, ip) ==> m == metadata
    ensures IpChanged(session, ip) ==> m.Keys == metadata.Keys + {"original_ip", "new_ip"}
                                       && m["original_ip"] == session.value.ipAddress && m["new_ip"] == ip
  {
    if IpChanged(session, ip) then metadata["original_ip" := session.value.ipAddress]["new_ip" := ip] else metadata
  }

  /** The notes after a critical event: the old notes, or nothing, then a
      "[SECURITY ALERT]" line. */
  function AlertNotes(notes: Option<string>, eventType: string, time: Instant): (r: string)
    ensures StartsWith(r, notes.GetOr(""))
  {
    var line := "\n[SECURITY ALERT] " + eventType + " at " + time.iso;
    assert (notes.GetOr("") + line)[..|notes.GetOr("")|] == notes.GetOr("");
    notes.GetOr("") + line
  }

  // ---------------------------------------------------------------------
  // Security status

  /** The critical events of the log, in log order. */
  function CriticalEvents(log: seq<SecurityEvent>): (r: seq<SecurityEvent>)
    ensures forall e :: e in r <==> e in log && IsCritical(e.eventType)
  {
    var keep := (e: SecurityEvent) => IsCritical(e.eventType);
    var id := (e: SecurityEvent) => e;
    FilterMapMembers(log, keep, id);
    FilterMap(log, keep, id)
  }

  /** The rank by which events are listed newest first. */
  function Recency(e: SecurityEvent): int {
    e.timestamp.order
  }

  /** The five most recent critical events of the log, newest first. */
  function RecentCritical(log: seq<SecurityEvent>): (r: seq<SecurityEvent>)
    ensures |r| <= 5
  {
    var sorted := SortDesc(CriticalEvents(log), Recency);
    if |sorted| <= 5 then sorted else sorted[..5]
  }

  /** The listed events are critical events of the log, newest first, as
      many as there are up to five, and every critical event not listed is
      no newer than any that is. */
  lemma RecentCriticalChosen(log: seq<SecurityEvent>)
    ensures var r := RecentCritical(log);
            && |r| == (if |CriticalEvents(log)| <= 5 then |CriticalEvents(log)| else 5)
            && DescendingBy(r, Recency)
            && (forall e :: e in r ==> e in log && IsCritical(e.eventType))
            && (forall e :: e in log && IsCritical(e.eventType) ==>
                  e in r || forall k :: 0 <= k < |r| ==> Recency(e) <= Recency(r[k]))
  {
    var critical := CriticalEvents(log);
    TopRanked(critical, Recency, 5);
    var top := SortDesc(critical, Recency);
    assert RecentCritical(log) == if |top| <= 5 then top else top[..5];
  }

  /** What the recruiter's dashboard shows of an event. */
  datatype CriticalEntry = CriticalEntry(eventType: string, timestamp: string, ipAddress: string)

  datatype SecurityStatus = SecurityStatus(
    interviewStatus: Option<string>,
    violations: int,
    isFlagged: bool,
    flagReason: Option<string>,
    activeSession: bool,
    deviceIp: Option<string>,
    lastActivity: Option<string>,
    lastEvent: Option<string>,
    totalSecurityEvents: nat,
    criticalEvents: seq<CriticalEntry>)

  // ---------------------------------------------------------------------
  // The interview

  datatype GenerateOutcome = GenerateForbidden | ResumeNotFound | GenerationFailed | Generated(questions: seq<Question>)

  datatype SubmitOutcome = MissingAnswer | QuestionsNotFound | QuestionNotFound | AnswerSaved

  datatype CompleteOutcome = NoQuestions | Unanswered(ids: seq<int>) | Completed(recommendation: Option<string>)

  datatype AnalysisOutcome =
    | AnalysisForbidden
    | NotCompleted
    | AnalysisReady(questions: seq<Question>, analysis: Option<OverallAnalysis>, aiScore: real)

  class InterviewRoom {
    /** The owner of the interview's job, `None` when the job is gone. */
    const jobOwner: Option<nat>
    const candidate: Option<Candidate>
    /** Whether a cache is configured. */
    const cacheOn: bool
    var record: Interview
    var cache: Cache
    /** The interview's rows of the security log, oldest first. */
    var log: seq<SecurityEvent>

    constructor (record: Interview, jobOwner: Option<nat>, candidate: Option<Candidate>, cacheOn: bool)
      ensures this.record == record && this.jobOwner == jobOwner && this.candidate == candidate
      ensures this.cacheOn == cacheOn && cache == EMPTY_CACHE && log == []
    {
      this.record := record;
      this.jobOwner := jobOwner;
      this.candidate := candidate;
      this.cacheOn := cacheOn;
      cache := EMPTY_CACHE;
      log := [];
    }

    /** `verify_access`. Without a cache nothing changes. With one, a failed
        email or code check counts one more failure for the address; a
        success logs a device switch when another address was bound, binds
        the caller's address, forgets its failures and opens a session with
        no violations. */
    method VerifyAccess(emailIn: string, codeIn: string, ip: string, now: Instant) returns (out: AccessOutcome)
      modifies this
      ensures out == AccessAnswer(Lower(Strip(emailIn)), Upper(Strip(codeIn)), cacheOn && Failures(old(cache), ip) >= 5,
                                  candidate, old(record).accessCode)
      ensures record == old(record)
      ensures !cacheOn || !(out.InvalidEmail? || out.InvalidCode? || out.AccessVerified?) ==>
                cache == old(cache) && log == old(log)
      ensures cacheOn && (out.InvalidEmail? || out.InvalidCode?) ==>
                && cache == old(cache).(attempts := old(cache).attempts[ip := Failures(old(cache), ip) + 1])
                && log == old(log)
      ensures cacheOn && out.AccessVerified? ==>
                && cache == old(cache).(attempts := old(cache).attempts - {ip}, device := Some(ip),
                                        session := Some(Session(Lower(Strip(emailIn)), ip, now.iso, 0, None, None)))
                && log == old(log) + (if DeviceMoved(old(cache).device, ip)
                                      then [MultiDeviceEvent(old(cache).device.value, ip, now)] else [])
    {
      var email := Lower(Strip(emailIn));
      var code := Upper(Strip(codeIn));
      out := AccessAnswer(email, code, cacheOn && Failures(cache, ip) >= 5, candidate, record.accessCode);
      if !cacheOn {
        return;
      }
      RecordAttempt(out, email, ip, now);
    }

    /** The cache bookkeeping of `verify_access`: a wrong address or code
        counts a failure against the address; a verified candidate clears
        the count, records the device and opens the session, and a change
        of device is logged. */
    method RecordAttempt(out: AccessOutcome, email: string, ip: string, now: Instant)
      modifies this
      ensures record == old(record)
      ensures !(out.InvalidEmail? || out.InvalidCode? || out.AccessVerified?) ==> cache == old(cache) && log == old(log)
      ensures out.InvalidEmail? || out.InvalidCode? ==>
                && cache == old(cache).(attempts := old(cache).attempts[ip := Failures(old(cache), ip) + 1])
                && log == old(log)
      ensures out.AccessVerified? ==>
                && cache == old(cache).(attempts := old(cache).attempts - {ip}, device := Some(ip),
                                        session := Some(Session(email, ip, now.iso, 0, None, None)))
                && log == old(log) + (if DeviceMoved(old(cache).device, ip)
                                      then [MultiDeviceEvent(old(cache).device.value, ip, now)] else [])
    {
      if out.InvalidEmail? || out.InvalidCode? {
        cache := cache.(attempts := cache.attempts[ip := Failures(cache, ip) + 1]);
      } else if out.AccessVerified? {
        if DeviceMoved(cache.device, ip) {
          log := log + [MultiDeviceEvent(cache.device.value, ip, now)];
        }
        cache := cache.(attempts := cache.attempts - {ip}, device := Some(ip),
                        session := Some(Session(email, ip, now.iso, 0, None, None)));
      }
    }

    /** `generate_questions` after the AI call: only the job's owner may
        generate; the resume must exist; the questions replace any earlier
        ones and the interview becomes "pending". */
    method GenerateQuestions(userId: nat, reply: Option<string>, readJson: string -> Option<QuestionsJson>)
      returns (out: GenerateOutcome)
      modifies this
      ensures cache == old(cache) && log == old(log)
      ensures jobOwner != Some(userId) ==> out == GenerateForbidden
      ensures jobOwner == Some(userId) && candidate.None? ==> out == ResumeNotFound
      ensures out.Generated? <==>
                && jobOwner == Some(userId) && candidate.Some?
                && reply.Some? && readJson(CleanQuestionReply(reply.value)).Some?
                && readJson(CleanQuestionReply(reply.value)).value.QuestionList?
      ensures out.Generated? ==>
                var items := readJson(CleanQuestionReply(reply.value)).value.items;
                && |out.questions| == |items|
                && (forall i :: 0 <= i < |items| ==>
                      out.questions[i] == items[i].(id := i + 1, answer := None, score := None))
                && IdsNumbered(out.questions)
                && UnansweredIds(out.questions) == Ids(out.questions)
                && record == old(record).(questions := Some(out.questions), status := Some("pending"))
      ensures !out.Generated? ==> record == old(record)
    {
      if jobOwner != Some(userId) {
        return GenerateForbidden;
      }
      if candidate.None? {
        return ResumeNotFound;
      }
      var questions := InterviewService.GenerateQuestions(reply, readJson);
      if questions.None? {
        return GenerationFailed;
      }
      NumberedAreUnanswered(questions.value);
      record := record.(questions := questions, status := Some("pending"));
      out := Generated(questions.value);
    }

    /** `get_questions`: the stored questions without their expected points;
        `None` (404) when none were generated. */
    method GetQuestions() returns (out: Option<seq<Question>>)
      ensures out.None? <==> record.questions.None?
      ensures out.Some? ==>
                && |out.value| == |record.questions.value|
                && forall i :: 0 <= i < |out.value| ==>
                     out.value[i] == record.questions.value[i].(expectedPoints := None)
    {
      if record.questions.None? {
        return None;
      }
      var qs := record.questions.value;
      var i := 0;
      while i < |qs|
        invariant 0 <= i <= |qs| == |record.questions.value|
        invariant forall k :: 0 <= k < i ==> qs[k] == record.questions.value[k].(expectedPoints := None)
        invariant forall k :: i <= k < |qs| ==> qs[k] == record.questions.value[k]
      {
        qs := qs[i := qs[i].(expectedPoints := None)];
        i := i + 1;
      }
      out := Some(qs);
    }

    /** The loop of `submit_answer` that looks for the question. */
    static method FindQuestion(qs: seq<Question>, id: int) returns (i: nat)
      ensures i == IdIndex(qs, id)
    {
      i := 0;
      while i < |qs|
        invariant i <= |qs|
        invariant forall k :: 0 <= k < i ==> qs[k].id != id
      {
        if qs[i].id == id {
          IdIndexIs(qs, id, i);
          return;
        }
        i := i + 1;
      }
      IdIndexIs(qs, id, i);
    }

    /** `submit_answer`: a missing (or 0) question id or a blank answer is
        refused; otherwise the first question with the id gets the trimmed
        answer and the time, replacing any earlier answer, and the interview
        becomes "in_progress" whatever its status was. */
    method SubmitAnswer(questionId: Option<int>, answerIn: string, now: string) returns (out: SubmitOutcome)
      modifies this
      ensures cache == old(cache) && log == old(log)
      ensures out == MissingAnswer <==> questionId.None? || questionId == Some(0) || Strip(answerIn) == ""
      ensures out == QuestionsNotFound <==> out != MissingAnswer && old(record).questions.None?
      ensures out == QuestionNotFound <==>
                && out != MissingAnswer && old(record).questions.Some?
                && IdIndex(old(record).questions.value, questionId.value) == |old(record).questions.value|
      ensures out != AnswerSaved ==> record == old(record)
      ensures out == AnswerSaved ==>
                var qs := old(record).questions.value;
                var i := IdIndex(qs, questionId.value);
                && i < |qs|
                && record == old(record).(questions := Some(qs[i := qs[i].(answer := Some(Strip(answerIn)), answeredAt := Some(now))]),
                                          status := Some("in_progress"))
    {
      var answer := Strip(answerIn);
      if questionId.None? || questionId == Some(0) || answer == "" {
        return MissingAnswer;
      }
      if record.questions.None? {
        return QuestionsNotFound;
      }
      var qs := record.questions.value;
      var i := FindQuestion(qs, questionId.value);
      if i == |qs| {
        return QuestionNotFound;
      }
      qs := qs[i := qs[i].(answer := Some(answer), answeredAt := Some(now))];
      record := record.(questions := Some(qs), status := Some("in_progress"));
      out := AnswerSaved;
    }

    /** `complete_interview`: refused, with the unanswered ids in question
        order, unless every question is answered; otherwise every unscored
        question is analysed, the overall assessment is made from the
        reviewed questions, and the interview becomes "completed" with one
        response per question and the assessment's percentage as its score. */
    method CompleteInterview(askAnswer: Question -> Option<string>, readAnswer: string -> Option<AnswerAnalysis>,
                             askOverall: seq<Question> -> Option<string>, readVerdict: string -> Option<AiVerdict>,
                             now: string)
      returns (out: CompleteOutcome)
      modifies this
      ensures cache == old(cache) && log == old(log)
      ensures old(record).questions.None? ==> out == NoQuestions && record == old(record)
      ensures old(record).questions.Some? && UnansweredIds(old(record).questions.value) != [] ==>
                out == Unanswered(UnansweredIds(old(record).questions.value)) && record == old(record)
      ensures out.Completed? ==>
                && old(record).questions.Some? && UnansweredIds(old(record).questions.value) == []
                && record.questions.Some?
                && |record.questions.value| == |old(record).questions.value|
                && (forall i :: 0 <= i < |record.questions.value| ==>
                      record.questions.value[i] == Reviewed(old(record).questions.value[i], askAnswer, readAnswer))
                && Completion(old(record), record.questions.value, askOverall, readVerdict, now) == record
                && out.recommendation == record.analysis.value.recommendation
    {
      if record.questions.None? {
        return NoQuestions;
      }
      var qs := record.questions.value;
      var unanswered := UnansweredIds(qs);
      if unanswered != [] {
        return Unanswered(unanswered);
      }
      var reviewed := ReviewAll(qs, askAnswer, readAnswer);
      record := Completion(record, reviewed, askOverall, readVerdict, now);
      out := Completed(record.analysis.value.recommendation);
    }

    /** `get_analysis`: only the job's owner sees it, and only once the
        interview is completed; a stored score of 0 or none shows as 0. */
    function AnalysisFor(userId: nat): (r: AnalysisOutcome)
      reads this
      ensures r.AnalysisReady? <==> jobOwner == Some(userId) && record.status == Some("completed")
      ensures jobOwner != Some(userId) ==> r == AnalysisForbidden
      ensures r.AnalysisReady? ==> r.questions == record.questions.GetOr([]) && r.analysis == record.analysis
    {
      if jobOwner != Some(userId) then AnalysisForbidden
      else if record.status != Some("completed") then NotCompleted
      else AnalysisReady(record.questions.GetOr([]), record.analysis, record.aiScore.GetOr(0.0))
    }

    /** `log_activity`: exactly one entry is appended. With a cache, the
        session records the violations, the time and the event type as
        reported, and the violation gauge is set; a report from an address
        other than the session's is then logged as "ip_address_changed".
        A critical event flags the interview in the cache and adds a
        "[SECURITY ALERT]" line to its notes. `eventTypeIn` is `None` when
        the request has no `event_type` key; a key present with a null
        value is not modelled. `violations` is the caller's reading of
        `metadata.get('violations', 0)`, so 0 when the key is missing; the
        metadata values themselves are kept as opaque strings. */
    method LogActivity(eventTypeIn: Option<string>, time: Instant, ip: string, userAgent: string, violations: int,
                       metadata: map<string, string>)
      returns (entry: SecurityEvent)
      modifies this
      ensures log == old(log) + [entry]
      ensures var session := if cacheOn then old(cache).session else None;
              entry == SecurityEvent(LoggedType(eventTypeIn.GetOr("unknown"), session, ip), time, ip, Some(userAgent),
                                     violations, LoggedMetadata(metadata, session, ip),
                                     StartsWith(LoggedType(eventTypeIn.GetOr("unknown"), session, ip), "auto_submit"))
      ensures !cacheOn ==> cache == old(cache)
      ensures cacheOn ==>
                cache == old(cache).(
                  session := if old(cache).session.None? then None
                             else Some(old(cache).session.value.(violations := violations, lastActivity := Some(time.iso),
                                                                 lastEvent := Some(eventTypeIn.GetOr("unknown")))),
                  violations := Some(violations),
                  flag := if IsCritical(entry.eventType) then Some(entry.eventType) else old(cache).flag)
      ensures record == if IsCritical(entry.eventType)
                        then old(record).(notes := Some(AlertNotes(old(record).notes, entry.eventType, time)))
                        else old(record)
    {
      var eventType := eventTypeIn.GetOr("unknown");
      var session: Option<Session> := None;
      if cacheOn {
        session := cache.session;
        if session.Some? {
          cache := cache.(session := Some(session.value.(violations := violations, lastActivity := Some(time.iso),
                                                         lastEvent := Some(eventType))));
        }
        cache := cache.(violations := Some(violations));
      }
      var logged := LoggedType(eventType, session, ip);
      entry := SecurityEvent(logged, time, ip, Some(userAgent), violations, LoggedMetadata(metadata, session, ip),
                             StartsWith(logged, "auto_submit"));
      log := log + [entry];
      if IsCritical(logged) {
        if cacheOn {
          cache := cache.(flag := Some(logged));
        }
        record := record.(notes := Some(AlertNotes(record.notes, logged, time)));
      }
    }

    /** `get_security_status`: only the job's owner sees it; without a
        cache, or without the entries, the zero defaults are shown. */
    function SecurityStatusFor(userId: nat): (r: Option<SecurityStatus>)
      reads this
      ensures r.Some? <==> jobOwner == Some(userId)
      ensures r.Some? ==>
                && r.value.totalSecurityEvents == |log|
                && |r.value.criticalEvents| == |RecentCritical(log)|
                && (forall i :: 0 <= i < |r.value.criticalEvents| ==>
                      r.value.criticalEvents[i] == Entry(RecentCritical(log)[i]))
                && (!cacheOn ==> r.value.violations == 0 && !r.value.isFlagged && !r.value.activeSession
                                 && r.value.deviceIp.None? && r.value.lastActivity.None?)
                && (r.value.isFlagged <==> cacheOn && cache.flag.Some? && cache.flag.value != "")
                && (r.value.activeSession <==> cacheOn && cache.session.Some?)
    {
      if jobOwner != Some(userId) then None
      else
        var recent := RecentCritical(log);
        var entries := seq(|recent|, i requires 0 <= i < |recent| => Entry(recent[i]));
        var flagged := cacheOn && cache.flag.Some? && cache.flag.value != "";
        var session := if cacheOn then cache.session else None;
        Some(SecurityStatus(
          record.status,
          if cacheOn then cache.violations.GetOr(0) else 0,
          flagged,
          if flagged then cache.flag else None,
          session.Some?,
          if session.Some? then Some(session.value.ipAddress) else None,
          if session.Some? then session.value.lastActivity else None,
          if session.Some? then session.value.lastEvent else None,
          |log|,
          entries))
    }
  }

  /** The event as the status lists it. */
  function Entry(e: SecurityEvent): CriticalEntry {
    CriticalEntry(e.eventType, e.timestamp.iso, e.ipAddress)
  }

  /** The ids of the questions, in order. */
  function Ids(qs: seq<Question>): seq<int> {
    seq(|qs|, i requires 0 <= i < |qs| => qs[i].id)
  }

  /** Freshly generated questions are all unanswered. */
  lemma NumberedAreUnanswered(qs: seq<Question>)
    requires forall i :: 0 <= i < |qs| ==> qs[i].answer.None?
    ensures UnansweredIds(qs) == Ids(qs)
  {
    var keep := (q: Question) => !Answered(q);
    var id := (q: Question) => q.id;
    if qs != [] {
      var init := qs[..|qs| - 1];
      NumberedAreUnanswered(init);
      assert Ids(qs) == Ids(init) + [qs[|qs| - 1].id];
      assert FilterMap(qs, keep, id) == FilterMap(init, keep, id) + [qs[|qs| - 1].id];
    }
  }

  lemma IdIndexIs(qs: seq<Question>, id: int, i: nat)
    requires i <= |qs|
    requires i < |qs| ==> qs[i].id == id
    requires forall k :: 0 <= k < i ==> qs[k].id != id
    ensures IdIndex(qs, id) == i
  {
  }

  /** The interview row after a completion over the reviewed questions. */
  function Completion(before: Interview, reviewed: seq<Question>, askOverall: seq<Question> -> Option<string>,
                      readVerdict: string -> Option<AiVerdict>, now: string): (r: Interview)
    ensures r.status == Some("completed") && r.completedAt == Some(now)
    ensures r.questions == Some(reviewed) && r.responses == Some(Responses(reviewed))
    ensures r.analysis.Some? && r.analysis.value.totalScore == TotalScore(reviewed)
            && r.analysis.value.questionsAnalyzed == |reviewed|
    ensures r.aiScore == Some(r.analysis.value.percentage.GetOr(0.0))
    ensures r.accessCode == before.accessCode && r.notes == before.notes
  {
    var overall := AnalyzeCompleteInterview(reviewed, askOverall(reviewed), readVerdict);
    before.(questions := Some(reviewed), responses := Some(Responses(reviewed)), analysis := Some(overall),
            aiScore := Some(overall.percentage.GetOr(0.0)), aiFeedback := Some(overall.summary.GetOr(Written(""))),
            status := Some("completed"), completedAt := Some(now))
  }
}
