/** A row of the resumes table, and what parsing and scoring the uploaded
    file make of it. */
module ResumeRecords {
  import opened Wrappers
  import ResumeParser
  import AiScorer

  datatype Job = Job(ownerId: nat, requirements: AiScorer.JobRequirements)

  /** A row of the resumes table; `None` is a NULL column. */
  datatype Resume = Resume(
    jobId: nat,
    filename: string,
    filePath: string,
    candidateName: Option<string>,
    email: Option<string>,
    phone: Option<string>,
    location: Option<string>,
    parsedData: Option<ResumeParser.ParsedResume>,
    aiScore: real,
    matchedSkills: seq<string>,
    missingSkills: seq<string>,
    experienceYears: Option<real>,
    educationLevel: Option<string>,
    aiExplanation: Option<AiScorer.Explanation>,
    status: string,
    processingStatus: string)

  /** A freshly uploaded resume: review status "new", processing "pending". */
  function NewResume(jobId: nat, filename: string, filePath: string): (r: Resume)
    ensures r.processingStatus == "pending" && r.status == "new"
    ensures r.jobId == jobId && r.filename == filename && r.filePath == filePath
    ensures r.parsedData.None? && r.aiScore == 0.0
  {
    Resume(jobId, filename, filePath, None, None, None, None, None, 0.0, [], [], None, None, None, "new", "pending")
  }

  /** The services processing calls on: the text extractors, the email and
      phone searches, whether the scorer uses the AI, the AI's answer for
      this resume (`None` when the call raises) and the float conversion. */
  datatype Services = Services(
    extract: (ResumeParser.DocKind, string) -> Option<string>,
    findEmail: string -> Option<string>,
    findPhone: string -> Option<string>,
    useAi: bool,
    aiAnswer: Option<string>,
    toFloat: string -> Option<real>)

  /** The parse of the file fails: an unsupported suffix or an extractor
      error. */
  predicate ParseFails(path: string, svc: Services) {
    ResumeParser.KindOf(path).None? || svc.extract(ResumeParser.KindOf(path).value, path).None?
  }

  /** The scorer's result for a parsed resume and a job. */
  function Score(p: ResumeParser.ParsedResume, job: Job, svc: Services): (r: AiScorer.ScoreResult)
    ensures 0.0 <= r.score <= 100.0
    ensures !svc.useAi || svc.aiAnswer.None? ==> r == AiScorer.RuleBasedResult(p, job.requirements)
  {
    AiScorer.ScoreResume(svc.useAi, p, job.requirements, svc.aiAnswer, svc.toFloat)
  }

  /** The record after a successful parse and score: the extracted fields
      overwrite what the record held, the scorer's result is copied, and
      processing is "completed"; the file, job and review status stay. */
  function Processed(before: Resume, p: ResumeParser.ParsedResume, score: AiScorer.ScoreResult): (r: Resume)
    ensures r.processingStatus == "completed"
    ensures r.parsedData == Some(p) && r.candidateName == Some(p.name)
    ensures r.aiScore == score.score && r.matchedSkills == score.matchedSkills
    ensures r.jobId == before.jobId && r.filename == before.filename && r.filePath == before.filePath
    ensures r.status == before.status
  {
    before.(candidateName := Some(p.name), email := p.email, phone := p.phone, location := p.location,
            experienceYears := Some(p.experienceYears), educationLevel := Some(p.educationLevel),
            parsedData := Some(p),
            aiScore := score.score, matchedSkills := score.matchedSkills, missingSkills := score.missingSkills,
            aiExplanation := Some(score.explanation),
            processingStatus := "completed")
  }

  /** `after` is what processing makes of `before`: "failed" with nothing
      else changed when parsing raises, otherwise the record `Processed`
      builds from a parse of the file's text. */
  ghost predicate ProcessOutcome(before: Resume, after: Resume, job: Job, svc: Services) {
    if ParseFails(before.filePath, svc) then
      after == before.(processingStatus := "failed")
    else
      var text := svc.extract(ResumeParser.KindOf(before.filePath).value, before.filePath).value;
      && after.parsedData.Some?
      && ResumeParser.IsParseOf(after.parsedData.value, text, svc.findEmail, svc.findPhone)
      && after == Processed(before, after.parsedData.value, Score(after.parsedData.value, job, svc))
  }

  /** Processing settles a record: its job, file and review status are
      kept, and its processing status ends "completed" or "failed". */
  predicate Settled(before: Resume, after: Resume) {
    && after.jobId == before.jobId && after.filename == before.filename && after.filePath == before.filePath
    && after.status == before.status
    && (after.processingStatus == "completed" || after.processingStatus == "failed")
  }
}
