/** The resume routes: the upload gate (plan quota, job ownership, file
    type), the processing step that moves a resume from "pending" through
    "processing" to "completed" or "failed", and the recruiter's review
    status. The database tables are maps held by one object. */
module Resumes {
  import opened Wrappers
  import opened Strings
  import ResumeParser
  import opened ResumeRecords
  import opened ResumeProcessing

  // ---------------------------------------------------------------------
  // File type

  const ALLOWED_EXTENSIONS: set<string> := {"pdf", "docx", "doc"}

  /** The index of the last '.' in `name`. */
  function LastDot(name: string): (i: nat)
    requires '.' in name
    ensures i < |name| && name[i] == '.'
    ensures forall k :: i < k < |name| ==> name[k] != '.'
  {
    if name[|name| - 1] == '.' then |name| - 1
    else
      assert '.' in name[..|name| - 1] by {
        var k :| 0 <= k < |name| && name[k] == '.';
        assert name[..|name| - 1][k] == '.';
      }
      LastDot(name[..|name| - 1])
  }

  /** `name.rsplit('.', 1)[1]`: what follows the last '.'. */
  function Extension(name: string): (r: string)
    requires '.' in name
    ensures '.' !in r
    ensures |r| < |name| && name == name[..|name| - |r| - 1] + "." + r
  {
    var i := LastDot(name);
    assert name == name[..i] + "." + name[i + 1..];
    name[i + 1..]
  }

  /** The extension of `stem.ext` is `ext` when `ext` has no dot, whatever
      dots the stem holds. */
  lemma ExtensionOf(stem: string, ext: string)
    requires '.' !in ext
    ensures Extension(stem + "." + ext) == ext
  {
    var n := stem + "." + ext;
    assert n[|stem|] == '.';
    assert forall k :: |stem| < k < |n| ==> n[k] == ext[k - |stem| - 1];
    var i := LastDot(n);
    assert i == |stem|;
  }

  /** `allowed_file`: the name has a dot and its lowercased extension is
      pdf, docx or doc. */
  predicate AllowedFile(filename: string) {
    '.' in filename && Lower(Extension(filename)) in ALLOWED_EXTENSIONS
  }

  /** A file `stem.ext` is accepted exactly when `ext`, lowercased, is one
      of the allowed extensions; a name without a dot never is. */
  lemma AllowedFileByExtension(stem: string, ext: string)
    requires '.' !in ext
    ensures AllowedFile(stem + "." + ext) <==> Lower(ext) in ALLOWED_EXTENSIONS
    ensures forall name :: '.' !in name ==> !AllowedFile(name)
  {
    ExtensionOf(stem, ext);
  }

  /** The upload gate lets through ".doc" files and upper-case ".PDF" and
      ".DOCX" files, but the parser only recognises the lower-case ".pdf"
      and ".docx" suffixes, so processing such a file always fails. The
      stored name `stem.ext` is what `secureName` made of the upload, and
      processing reads the path it is stored under. */
  lemma AcceptedButUnparseable(stem: string, ext: string, folder: string, userId: nat, jobId: nat)
    requires ext == "doc" || ext == "PDF" || ext == "DOCX"
    ensures AllowedFile(stem + "." + ext)
    ensures ResumeParser.KindOf(UploadPath(folder, userId, jobId, stem + "." + ext)).None?
  {
    LowerIsAllowed(ext);
    AllowedFileByExtension(stem, ext);
    var path := UploadPath(folder, userId, jobId, stem + "." + ext);
    assert path[|path| - 1] == ext[|ext| - 1];
  }

  lemma LowerIsAllowed(ext: string)
    requires ext == "doc" || ext == "PDF" || ext == "DOCX"
    ensures Lower(ext) in ALLOWED_EXTENSIONS
  {
    if ext == "PDF" {
      assert Lower(ext) == "pdf";
    } else if ext == "DOCX" {
      assert Lower(ext) == "docx";
    } else {
      assert Lower(ext) == "doc";
    }
  }

  // ---------------------------------------------------------------------
  // Plan quota

  /** The number of resumes a plan allows; -1 is unlimited, and a plan
      name that is not configured gets the starter limit. */
  function ResumesLimit(plan: string): int {
    if plan == "pro" then 2000
    else if plan == "enterprise" then -1
    else 500
  }

  /** The quota check of the upload: refused when the plan is limited and
      the count has reached the limit. */
  predicate UnderQuota(plan: string, used: int) {
    var limit := ResumesLimit(plan);
    limit == -1 || used < limit
  }

  /** Only the enterprise plan is unlimited; an unknown plan behaves as
      starter; and a user who may upload also could with fewer uploads. */
  lemma QuotaFacts(plan: string, used: int, fewer: int)
    requires fewer <= used
    ensures ResumesLimit(plan) == -1 <==> plan == "enterprise"
    ensures plan != "starter" && plan != "pro" && plan != "enterprise" ==> ResumesLimit(plan) == ResumesLimit("starter")
    ensures UnderQuota(plan, used) ==> UnderQuota(plan, fewer)
    ensures plan == "enterprise" ==> UnderQuota(plan, used)
  {
  }

  // ---------------------------------------------------------------------
  // Records

  datatype Account = Account(plan: string, resumesUsed: int)

  /** The outcomes of an upload, one per response of the route. */
  datatype UploadOutcome =
    | UserNotFound
    | LimitReached
    | JobNotFound
    | NoFile
    | NoFileSelected
    | TypeNotAllowed
    | Uploaded(id: nat)

  /** The checks of the upload in the route's order; `None` when all pass. */
  function UploadRefusal(accounts: map<nat, Account>, jobs: map<nat, Job>, userId: nat, jobId: nat,
                         file: Option<string>): (r: Option<UploadOutcome>)
    ensures r.Some? ==> !r.value.Uploaded?
    ensures r.None? <==>
              && userId in accounts
              && UnderQuota(accounts[userId].plan, accounts[userId].resumesUsed)
              && jobId in jobs && jobs[jobId].ownerId == userId
              && file.Some? && file.value != "" && AllowedFile(file.value)
  {
    if userId !in accounts then Some(UserNotFound)
    else if !UnderQuota(accounts[userId].plan, accounts[userId].resumesUsed) then Some(LimitReached)
    else if jobId !in jobs || jobs[jobId].ownerId != userId then Some(JobNotFound)
    else if file.None? then Some(NoFile)
    else if file.value == "" then Some(NoFileSelected)
    else if !AllowedFile(file.value) then Some(TypeNotAllowed)
    else None
  }

  /** The quota is checked before the job and the file: a user over quota
      is refused whatever job and file the request names. */
  lemma QuotaCheckedFirst(accounts: map<nat, Account>, jobs: map<nat, Job>, userId: nat, jobId: nat,
                          file: Option<string>)
    requires userId in accounts && !UnderQuota(accounts[userId].plan, accounts[userId].resumesUsed)
    ensures UploadRefusal(accounts, jobs, userId, jobId, file) == Some(LimitReached)
  {
  }

  /** Where an upload is stored: `<folder>/<user id>/<job id>/<file name>`. */
  function UploadPath(folder: string, userId: nat, jobId: nat, filename: string): string {
    folder + "/" + NatToString(userId) + "/" + NatToString(jobId) + "/" + filename
  }

  datatype StatusOutcome = ResumeNotFound | InvalidStatus | StatusUpdated

  predicate ValidReviewStatus(status: Option<string>) {
    status == Some("new") || status == Some("shortlisted") || status == Some("rejected")
  }

  /** The resumes, jobs and accounts tables. */
  class ResumeDesk {
    var accounts: map<nat, Account>
    var jobs: map<nat, Job>
    var resumes: map<nat, Resume>
    var nextId: nat

    /** Every stored resume id is below the next id to hand out. */
    ghost predicate Valid()
      reads this
    {
      forall id :: id in resumes ==> id < nextId
    }

    constructor (accounts: map<nat, Account>, jobs: map<nat, Job>)
      ensures Valid()
      ensures this.accounts == accounts && this.jobs == jobs && resumes == map[]
    {
      this.accounts := accounts;
      this.jobs := jobs;
      resumes := map[];
      nextId := 1;
    }

    /** The resume belongs to a job the user owns. */
    predicate Owns(userId: nat, resumeId: nat)
      reads this
    {
      resumeId in resumes && resumes[resumeId].jobId in jobs && jobs[resumes[resumeId].jobId].ownerId == userId
    }

    /** `process_resume`: nothing happens when the resume or the job is
        missing. Otherwise the record becomes "completed" with the parsed
        and scored fields, or "failed" with every other field left as it
        was when parsing raises. */
    method ProcessResume(resumeId: nat, jobId: nat, svc: Services) returns (ghost after: Resume)
      modifies this`resumes
      ensures resumes.Keys == old(resumes).Keys
      ensures resumeId !in old(resumes) || jobId !in jobs ==> resumes == old(resumes)
      ensures resumeId in old(resumes) && jobId in jobs ==>
                && resumes == old(resumes)[resumeId := after]
                && ProcessOutcome(old(resumes)[resumeId], after, jobs[jobId], svc)
                && Settled(old(resumes)[resumeId], after)
    {
      resumes, after := ProcessRow(resumes, jobs, resumeId, jobId, svc);
    }

    /** Processing a record just stored for an existing job settles it
        and leaves the other records alone. */
    method SettleUpload(resumeId: nat, jobId: nat, svc: Services)
      requires resumeId in resumes && jobId in jobs
      modifies this`resumes
      ensures resumes.Keys == old(resumes).Keys
      ensures forall id :: id in old(resumes) && id != resumeId ==> resumes[id] == old(resumes)[id]
      ensures Settled(old(resumes)[resumeId], resumes[resumeId])
      ensures ProcessOutcome(old(resumes)[resumeId], resumes[resumeId], jobs[jobId], svc)
    {
      ghost var processed := ProcessResume(resumeId, jobId, svc);
    }

    /** `upload_resume`: the checks in order, then a new "pending" record
        under a fresh id, one more resume counted against the user's plan,
        and processing of the new record. */
    method UploadResume(userId: nat, jobId: nat, file: Option<string>, folder: string,
                        secureName: string -> string, svc: Services)
      returns (out: UploadOutcome)
      requires Valid()
      modifies this`accounts, this`resumes, this`nextId
      ensures Valid()
      ensures UploadRefusal(old(accounts), old(jobs), userId, jobId, file).Some? ==>
                && out == UploadRefusal(old(accounts), old(jobs), userId, jobId, file).value
                && accounts == old(accounts) && resumes == old(resumes) && nextId == old(nextId)
      ensures UploadRefusal(old(accounts), old(jobs), userId, jobId, file).None? ==>
                && out == Uploaded(old(nextId))
                && old(nextId) !in old(resumes)
                && accounts == old(accounts)[userId := old(accounts)[userId].(resumesUsed := old(accounts)[userId].resumesUsed + 1)]
                && out.id in resumes
                && resumes[out.id].filename == secureName(file.value)
                && resumes[out.id].filePath == UploadPath(folder, userId, jobId, secureName(file.value))
                && resumes[out.id].status == "new"
                && (resumes[out.id].processingStatus == "completed" || resumes[out.id].processingStatus == "failed")
                && ProcessOutcome(NewResume(jobId, secureName(file.value), UploadPath(folder, userId, jobId, secureName(file.value))),
                                  resumes[out.id], old(jobs)[jobId], svc)
                && (forall id :: id in old(resumes) ==> id in resumes && resumes[id] == old(resumes)[id])
    {
      var refusal := UploadRefusal(accounts, jobs, userId, jobId, file);
      if refusal.Some? {
        return refusal.value;
      }
      var filename := secureName(file.value);
      var path := UploadPath(folder, userId, jobId, filename);
      var id := nextId;
      resumes := resumes[id := NewResume(jobId, filename, path)];
      nextId := nextId + 1;
      var account := accounts[userId];
      accounts := accounts[userId := account.(resumesUsed := account.resumesUsed + 1)];
      assert accounts == old(accounts)[userId := old(accounts)[userId].(resumesUsed := old(accounts)[userId].resumesUsed + 1)];
      SettleUpload(id, jobId, svc);
      out := Uploaded(id);
    }

    /** `update_resume_status`: only the owner of the job can change the
        review status, and only to "new", "shortlisted" or "rejected". */
    method UpdateResumeStatus(userId: nat, resumeId: nat, status: Option<string>) returns (out: StatusOutcome)
      modifies this
      ensures accounts == old(accounts) && jobs == old(jobs) && nextId == old(nextId)
      ensures !old(Owns(userId, resumeId)) ==> out == ResumeNotFound && resumes == old(resumes)
      ensures old(Owns(userId, resumeId)) && !ValidReviewStatus(status) ==> out == InvalidStatus && resumes == old(resumes)
      ensures old(Owns(userId, resumeId)) && ValidReviewStatus(status) ==>
                out == StatusUpdated && resumes == old(resumes)[resumeId := old(resumes)[resumeId].(status := status.value)]
    {
      if !Owns(userId, resumeId) {
        return ResumeNotFound;
      }
      if !ValidReviewStatus(status) {
        return InvalidStatus;
      }
      resumes := resumes[resumeId := resumes[resumeId].(status := status.value)];
      out := StatusUpdated;
    }
  }
}
