/** `process_resume`: parsing and scoring an uploaded resume and writing
    the outcome into its row. */
module ResumeProcessing {
  import ResumeParser
  import opened ResumeRecords

  /** The body of `process_resume` after the "processing" mark: parse the
      file, score the result, and build the record; a parse error leaves
      the record "failed". */
  method ParseAndScore(before: Resume, job: Job, svc: Services) returns (after: Resume)
    ensures ProcessOutcome(before, after, job, svc)
    ensures Settled(before, after)
  {
    var parsed := ResumeParser.Parse(before.filePath, svc.extract, svc.findEmail, svc.findPhone);
    if parsed.None? {
      assert ParseFails(before.filePath, svc);
      return before.(processingStatus := "failed");
    }
    assert !ParseFails(before.filePath, svc);
    after := Processed(before, parsed.value, Score(parsed.value, job, svc));
  }

  /** `process_resume` on the resumes table: the row is replaced by its
      processed version, and the table keeps its ids; nothing changes when
      the row or the job is missing. */
  method ProcessRow(rows: map<nat, Resume>, jobs: map<nat, Job>, resumeId: nat, jobId: nat, svc: Services)
    returns (rows': map<nat, Resume>, ghost after: Resume)
    ensures rows'.Keys == rows.Keys
    ensures resumeId !in rows || jobId !in jobs ==> rows' == rows
    ensures resumeId in rows && jobId in jobs ==>
              && rows' == rows[resumeId := after]
              && ProcessOutcome(rows[resumeId], after, jobs[jobId], svc)
              && Settled(rows[resumeId], after)
  {
    if resumeId !in rows || jobId !in jobs {
      return rows, NewResume(jobId, "", "");
    }
    var processed := ParseAndScore(rows[resumeId], jobs[jobId], svc);
    rows' := rows[resumeId := processed];
    after := processed;
  }
}
