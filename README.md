# HireLens back end: a Dafny model

HireLens is a recruiting service. A recruiter posts jobs and uploads candidates' resumes. Each resume is parsed into structured fields and scored against the job. The candidate can then be invited to an AI-run interview, which is watched by a browser-side security monitor. The service also has a chat assistant, a dashboard, request monitoring and the usual sign-up, login and OAuth routes.

This project models the logic of that back end in Dafny and proves what its code promises. One module stands for each core source file:

| module | file | what it holds |
|---|---|---|
| `ResumeParser` | resume_parser.dfy | name, location, skills, years of experience, education, projects and certifications, and the suffix dispatch of `parse` |
| `AiScorer` | ai_scorer.dfy | the rule-based 50/30/10/10 score, the experience-requirement reader, the label-line reader and clamp of the AI path, and the dispatch |
| `ResumeRecords`, `ResumeProcessing`, `Resumes` | resume_records.dfy, resume_processing.dfy, resumes.dfy | the resume row, `process_resume`, the upload gate (file type, plan quota, job ownership) and the review-status whitelist |
| `InterviewService` | ai_interview_service.dfy | code-fence and bracket cleaning of AI replies, question numbering, interview totals and the fallback assessment |
| `AiInterviews` | ai_interviews.dfy | one interview as an object: access check with the failed-attempt limit and device binding, questions, answers, completion, the security log and the recruiter's views |
| `Pagination` | pagination.dfy | `paginate` and `paginate_response` |
| `Monitoring` | monitoring.dfy | the request metrics, the status recorded by the logging wrapper, the body redaction and the bounded error buffer |
| `Chat` | chat.dfy | the keyword fallback, the history window and the model fallback loop |
| `Dashboard` | dashboard.dfy | the shortlist rate, the age labels, the recent-jobs cards and the activity feed |
| `Auth` | auth.dfy | address normalisation, the order of the login checks, the active-session cap, signup, login, the OAuth callback and logout |

Some modules are helpers with no source file of their own:
- `Wrappers` holds `Option`.
- `Strings` holds Python's `strip`, `find`, `rfind`, `in` and `split`, and ASCII versions of `lower`, `upper`, `capitalize` and the decimal digits; "## Left out" says where Python's Unicode rules differ.
- `Seqs` holds filtering, slicing and first-index helpers.
- `Ordering` holds Python's code-point order on strings and a stable sort by key.

Code that changes state step by step is modelled as classes and methods with loops. These are `ResumeDesk`, `InterviewRoom`, `PerformanceMonitor`, `ErrorTracker` and `AuthStore`, plus the loops of the parser, the scorer, chat and the dashboard. Each method is proved against a specification function. The properties the code promises are then proved about those functions as lemmas.

Several things outside the code are given to the model as parameters, because the model cannot compute them:
- the AI models' replies;
- the JSON reader;
- the text extractors for PDF and DOCX;
- the email and phone regexes;
- the password check, the OAuth provider's token check and hashing;
- clocks and request headers.

## Model

| member | source | states |
|---|---|---|
| ResumeParser.ExtractName | services/resume_parser.py:53-58 | the name is the first line that is non-blank after stripping, returned stripped; "Unknown" when every line is blank; never empty |
| ResumeParser.ExtractLocation | services/resume_parser.py:72-79 | `None` exactly when none of the first ten raw lines names one of the six cities (lowercased substring); otherwise the first such line, stripped |
| ResumeParser.FindSkills | services/resume_parser.py:177-194 | the result is strictly sorted, so it has no duplicates; a canonical name is in it exactly when one of the entry's aliases occurs, word-anchored, in the text |
| ResumeParser.ExtractSkills | services/resume_parser.py:81-196 | over the whole taxonomy and the lowercased text: strictly sorted, and a name is present exactly when the taxonomy finds it |
| ResumeParser.HasAnchor | services/resume_parser.py:183 | the branch test is exactly `startswith('\\b')` |
| ResumeParser.NoAliasCarriesAnchors | services/resume_parser.py:84-187 | no alias of the taxonomy begins with a backslash and `b`, so the raw-regex branch is never taken |
| ResumeParser.RInTaxonomy | services/resume_parser.py:99 | the taxonomy has an "R" entry |
| ResumeParser.RNeedsBackspace | services/resume_parser.py:99-192 | the "R" alias is backspace, `r`, backspace, so "R" is found only in text holding a backspace character |
| ResumeParser.CPlusPlusNeedsFollowingWordChar | services/resume_parser.py:90-190 | "c++" counts only when a word character follows it, because the closing `\b` sits after a non-word character |
| ResumeParser.AllMatches | services/resume_parser.py:201-202 | every group `findall` captures has the shape `\d+\.?\d*` |
| ResumeParser.MaxString | services/resume_parser.py:205 | `max` of the captured strings: a member of the list that no member exceeds in string order |
| ResumeParser.ExtractExperienceYears | services/resume_parser.py:198-207 | never negative; 0.0 without a match; otherwise the value of the string-greatest captured number |
| ResumeParser.ExperienceComparesAsStrings | services/resume_parser.py:205 | the numbers are compared as strings: "5" beats "10" |
| ResumeParser.NoDigitsNoExperience | services/resume_parser.py:204-207 | text without a digit gives 0.0 years |
| ResumeParser.ExtractEducation | services/resume_parser.py:209-220 | the level is one of PhD, Masters, Bachelors or Unknown |
| ResumeParser.EducationIsHighestRevealed | services/resume_parser.py:209-220 | the level reported is revealed by a keyword (or is Unknown), and no higher-ranked level is revealed, wherever its keyword occurs |
| ResumeParser.ExtractProjects | services/resume_parser.py:222-232 | at most five; the stripped lines containing "project" (any case) and ':', in document order |
| ResumeParser.ProjectsAreProjectLines | services/resume_parser.py:228-232 | every reported project is a stripped project line; with at most five such lines, all of them are reported |
| ResumeParser.KeywordsIn | services/resume_parser.py:240-242 | no more entries than keywords |
| ResumeParser.ExtractCertifications | services/resume_parser.py:234-244 | exactly the upper-cased keywords of the seven that occur in the lowercased text, in list order |
| ResumeParser.KindOf | services/resume_parser.py:13-18 | PDF exactly for a case-sensitive ".pdf" suffix, DOCX exactly for ".docx", otherwise refused |
| ResumeParser.Parse | services/resume_parser.py:9-37 | succeeds exactly when the suffix is supported and the extractor succeeds; every field is then the extractor's value for the text |
| AiScorer.ParseExperienceRequirement | services/ai_scorer.py:140-147 | 0 for none or for text without a digit; otherwise the value of the first run of digits |
| AiScorer.RequirementReadsNumber | services/ai_scorer.py:146-147 | a requirement written as a number followed by non-digit text reads back as that number |
| AiScorer.SkillsPoints | services/ai_scorer.py:35-45 | between 0 and 50; exactly 50 when no skill is required or all are matched |
| AiScorer.ExperiencePoints | services/ai_scorer.py:48-59 | one of 0, 10, 20 and 30 |
| AiScorer.ExperiencePointsMonotone | services/ai_scorer.py:51-57 | more experience never earns fewer points |
| AiScorer.ExperienceFullIffMet | services/ai_scorer.py:51-59 | the full 30 exactly when the requirement is 0 or is met |
| AiScorer.EducationPoints | services/ai_scorer.py:62-66 | 0 or 10 |
| AiScorer.ParsedLevelsEarnEducationPoints | services/ai_scorer.py:62-66 | every level the parser reports except Unknown earns the 10 points |
| AiScorer.ExtrasPoints | services/ai_scorer.py:69-70 | 10 exactly when there is a project or a certification, else 0 |
| AiScorer.RuleBasedResult | services/ai_scorer.py:24-81 | the two lists split the required skills; the score is within 0..100 and is the sum of the four parts; the explanation gives the counts, years and level |
| AiScorer.RequiredSkills | services/ai_scorer.py:32 | one lowercased entry per listed skill, none when the job lists none |
| AiScorer.PartitionSkills | services/ai_scorer.py:36-40 | the loop builds the matched and missing lists of the specification |
| AiScorer.RuleBasedScore | services/ai_scorer.py:24-81 | the method computes the rule-based result |
| AiScorer.LowerAll | services/ai_scorer.py:31-32 | each entry lowercased, in order |
| AiScorer.Cap | services/ai_scorer.py:77 | `min(score, 100)` |
| AiScorer.SkillsPartition | services/ai_scorer.py:31-42 | each required skill is in exactly the one list its match decides: matched iff it is a substring of some candidate skill |
| AiScorer.CapNeverBinds | services/ai_scorer.py:42-77 | the four parts never exceed 100, so the cap never changes the sum |
| AiScorer.NoRequirementsFullSkillsPoints | services/ai_scorer.py:35-45 | no required skills: both lists empty and the full 50 |
| AiScorer.ExtractField | services/ai_scorer.py:149-157 | reads only the first line that starts with the key, with every copy of the key removed and the rest stripped; `None` when no line starts with it |
| AiScorer.FirstWithPrefix | services/ai_scorer.py:153-154 | the index of the first line starting with the key |
| AiScorer.ExtractFieldReadsWrittenLine | services/ai_scorer.py:149-157 | a `KEY value` line written by the model is read back as the value |
| AiScorer.ExtractNumber | services/ai_scorer.py:149-159 | the default when there is no line or the first line does not convert; no later line is consulted |
| AiScorer.CommaList | services/ai_scorer.py:122-127 | no entry is blank or holds a comma |
| AiScorer.CommaListReadsJoined | services/ai_scorer.py:122-127 | comma-separated entries read back as the non-blank ones, stripped, in order; stripped non-blank entries read back unchanged |
| AiScorer.AiResult | services/ai_scorer.py:121-134 | a score within 0..100, 50 without a SCORE line; skill lists without blanks |
| AiScorer.Clamp | services/ai_scorer.py:130 | `min(max(score, 0), 100)` |
| AiScorer.ScoreResume | services/ai_scorer.py:16-22 | a score within 0..100; the rule-based result when the AI is off or, as `_ai_score` does on an exception, when its call raises |
| ResumeRecords.NewResume | routes/resumes.py:61-66 | a new row: processing "pending", review status "new", nothing parsed yet |
| ResumeRecords.Score | services/ai_scorer.py:16-22 | the scorer's result, within 0..100 |
| ResumeRecords.Processed | routes/resumes.py:104-121 | the parsed fields and the score overwrite the row unconditionally; processing "completed"; file, job and review status kept |
| ResumeProcessing.ParseAndScore | routes/resumes.py:99-128 | the row ends "failed" with nothing else changed when parsing raises, otherwise "completed" with the fields of a true parse of the file's text |
| ResumeProcessing.ProcessRow | routes/resumes.py:87-128 | nothing changes when the row or the job is missing; otherwise only that row is replaced, by its processed version |
| Resumes.LastDot | routes/resumes.py:16 | the index of the last '.' |
| Resumes.Extension | routes/resumes.py:16 | `rsplit('.', 1)[1]`: what follows the last '.', holding no dot |
| Resumes.ExtensionOf | routes/resumes.py:16 | the extension of `stem.ext` is `ext` |
| Resumes.AllowedFileByExtension | routes/resumes.py:15-16 | accepted exactly when the lowercased extension is pdf, docx or doc; a name without a dot is refused |
| Resumes.AcceptedButUnparseable | routes/resumes.py:15-16 | ".doc", ".PDF" and ".DOCX" names pass the upload gate, but the parser refuses the path such a name is stored under, so their processing ends "failed" |
| Resumes.QuotaFacts | routes/resumes.py:29-32 | only the enterprise plan is unlimited; an unknown plan has the starter limit; using fewer resumes never turns a pass into a refusal |
| Resumes.UploadRefusal | routes/resumes.py:25-50 | the upload passes exactly when the user exists, is under quota, owns the job, and sends a non-empty, allowed file name |
| Resumes.QuotaCheckedFirst | routes/resumes.py:29-38 | a user over quota is refused whatever the job and the file |
| Resumes.ResumeDesk.ProcessResume | routes/resumes.py:87-128 | as `ProcessRow`, on the table held by the desk |
| Resumes.ResumeDesk.SettleUpload | routes/resumes.py:72-76 | the new row becomes what `process_resume` makes of it (failed on a parse error, otherwise parsed and scored), ending "completed" or "failed"; the other rows are untouched |
| Resumes.ResumeDesk.UploadResume | routes/resumes.py:18-81 | a refusal changes nothing; otherwise a new row under a fresh id, `resumes_used` raised by exactly one, and the new pending row processed as `process_resume` does |
| Resumes.ResumeDesk.UpdateResumeStatus | routes/resumes.py:149-175 | not found unless the user owns the job; only new, shortlisted and rejected are accepted, and a refusal leaves the row unchanged |
| InterviewService.FenceContent | services/ai_interview_service.py:108-111 | after cleaning, no "```" remains in fenced text; unfenced text is unchanged |
| InterviewService.PlainFenceContent | services/ai_interview_service.py:110-111 | without "```json", a reply with a plain fence around the body gives back the text between the first two "```" |
| InterviewService.JsonFenceContent | services/ai_interview_service.py:108-109 | a reply fenced as "```json" body "```" gives back the body |
| InterviewService.BracketCut | services/ai_interview_service.py:116-119 | never longer than the text |
| InterviewService.BracketCutOfArray | services/ai_interview_service.py:116-119 | text around an array is cut from the first '[' to the last ']' inclusive |
| InterviewService.BracketCutIdempotent | services/ai_interview_service.py:116-119 | cutting twice is cutting once |
| InterviewService.NumberQuestions | services/ai_interview_service.py:137-140 | ids 1..n in order, answer and score cleared, every other field kept |
| InterviewService.GenerateQuestions | services/ai_interview_service.py:97-150 | questions exactly when the AI replies and the cleaned reply reads as a JSON list; they are then numbered |
| InterviewService.StripReplyFences | services/ai_interview_service.py:203-209 | never longer than the reply |
| InterviewService.StripReplyFencesOfBlock | services/ai_interview_service.py:203-209 | a "```json" body "```" reply reads as its stripped body |
| InterviewService.StripReplyFencesUnfenced | services/ai_interview_service.py:203-209 | an unfenced reply is only stripped |
| InterviewService.AnalyzeAnswer | services/ai_interview_service.py:199-216 | an analysis exactly when the AI replies and the fence-stripped reply parses |
| InterviewService.Percentage | services/ai_interview_service.py:237 | 0 when the maximum is not positive |
| InterviewService.TotalWithinMax | services/ai_interview_service.py:235-236 | scores within their maxima give a total within 0..`max_possible` |
| InterviewService.PercentageWithinRange | services/ai_interview_service.py:237 | scores within their maxima give a percentage within 0..100 |
| InterviewService.FallbackRecommendation | services/ai_interview_service.py:302 | "MAYBE" exactly when the percentage is at least 50, otherwise "NO_HIRE" |
| InterviewService.FallbackAnalysis | services/ai_interview_service.py:297-309 | the overall score is the total, with the computed percentage and the two-label recommendation |
| InterviewService.AnalyzeCompleteInterview | services/ai_interview_service.py:235-309 | totals and question count are always the computed ones; the AI's percentage and recommendation are kept when it answers; otherwise the fallback |
| InterviewService.FallbackVerdict | services/ai_interview_service.py:302 | without the AI, "MAYBE" exactly when the total is at least half the maximum |
| AiInterviews.AccessGranted | routes/ai_interviews.py:31-72 | access is granted exactly when both credentials are given, the attempts are not blocked, the candidate's address matches and the code matches; a blocked address is refused before any credential check |
| AiInterviews.CodeNormalised | routes/ai_interviews.py:32 | a padded, lowercased code reads as the upper-cased code |
| AiInterviews.MultiDeviceEvent | routes/ai_interviews.py:81-87 | the device-switch entry is critical and not auto-submitted |
| AiInterviews.UnansweredIds | routes/ai_interviews.py:345 | empty exactly when every question is answered |
| AiInterviews.IdIndex | routes/ai_interviews.py:291-295 | the first question with the id, or none |
| AiInterviews.NumberedIdIndex | routes/ai_interviews.py:291-295 | in numbered questions id k is at index k-1, and ids outside 1..n are not found |
| AiInterviews.Reviewed | routes/ai_interviews.py:353-373 | a scored question is left alone; a failed analysis gives score 0 and "Analysis unavailable"; id, text, answer and maximum are kept |
| AiInterviews.Responses | routes/ai_interviews.py:387-391 | one entry per question, in order |
| AiInterviews.ReviewAll | routes/ai_interviews.py:353-373 | the loop reviews every question, in order |
| AiInterviews.LoggedType | routes/ai_interviews.py:508-515 | a report from an address other than the session's is logged as the critical "ip_address_changed"; otherwise the reported type |
| AiInterviews.LoggedMetadata | routes/ai_interviews.py:513-515 | an address change adds the original and the new address |
| AiInterviews.AlertNotes | routes/ai_interviews.py:560-561 | the old notes are kept and the alert line follows them |
| AiInterviews.CriticalEvents | routes/ai_interviews.py:638-646 | exactly the critical entries of the log |
| AiInterviews.RecentCritical | routes/ai_interviews.py:638-647 | at most five |
| AiInterviews.RecentCriticalChosen | routes/ai_interviews.py:638-647 | the listed events are critical entries of the log, newest first, and no unlisted critical entry is newer than a listed one |
| AiInterviews.NumberedAreUnanswered | routes/ai_interviews.py:345 | freshly generated questions are all unanswered |
| AiInterviews.Completion | routes/ai_interviews.py:386-396 | status completed with its time; the reviewed questions, the responses and the analysis are stored; the score is the analysis percentage |
| AiInterviews.InterviewRoom.VerifyAccess | routes/ai_interviews.py:24-111 | the answer the access check decides; without a cache nothing changes; a wrong address or code raises the address's attempts by one; success binds the device, clears the attempts, opens a session with 0 violations, and logs one multi-device entry when another address was bound |
| AiInterviews.InterviewRoom.RecordAttempt | routes/ai_interviews.py:59-105 | the cache and log effects of the access check |
| AiInterviews.InterviewRoom.GenerateQuestions | routes/ai_interviews.py:122-187 | refused unless the caller owns the job and the resume exists; questions exactly when the cleaned reply reads as a list; they are then that list's items, one for one and in order, numbered 1..n with answer and score cleared, stored in place of any earlier ones, and the status becomes "pending"; otherwise the row is unchanged |
| AiInterviews.InterviewRoom.GetQuestions | routes/ai_interviews.py:223-241 | none when no questions are stored; otherwise every question without its expected points |
| AiInterviews.InterviewRoom.FindQuestion | routes/ai_interviews.py:291-295 | the loop finds the first question with the id |
| AiInterviews.InterviewRoom.SubmitAnswer | routes/ai_interviews.py:274-306 | refused for a missing or 0 id or a blank answer, without questions, or for an unknown id; otherwise only the first question with the id gets the answer, and the status becomes "in_progress" whatever it was |
| AiInterviews.InterviewRoom.CompleteInterview | routes/ai_interviews.py:335-396 | refused with the unanswered ids in order, changing nothing; otherwise the row becomes the completion of the reviewed questions |
| AiInterviews.InterviewRoom.AnalysisFor | routes/ai_interviews.py:429-450 | ready exactly when the caller owns the job and the interview is completed; a stranger is refused first |
| AiInterviews.InterviewRoom.LogActivity | routes/ai_interviews.py:478-562 | exactly one entry appended; the session keeps the reported type as its last event; auto-submitted iff the logged type starts with "auto_submit"; a critical type flags the interview and appends an alert line to the notes |
| AiInterviews.InterviewRoom.SecurityStatusFor | routes/ai_interviews.py:594-655 | only the owner of the job sees it; without a cache the zero defaults; flagged and active exactly when the cache holds a flag and a session; the size of the log and its five most recent critical entries |
| Pagination.Window | utils/pagination.py:33 | the rows from the offset on, at most `limit` of them, in order |
| Pagination.Paginate | utils/pagination.py:9-60 | refused exactly when the effective page size is not positive; otherwise the page is `max(page, 1)` and the page size `min(per_page, max_per_page)` |
| Pagination.PageCountIsCeiling | utils/pagination.py:44 | the page count is the ceiling of total over page size |
| Pagination.PageContents | utils/pagination.py:29-58 | the page holds the rows from `(page-1)*per_page` on, in order, a full page except at the end; `has_next` iff the page is below the page count, `has_prev` iff it is above 1; the next and previous pages are page±1 exactly when their flags hold |
| Pagination.HasNextIffMoreRows | utils/pagination.py:38-45 | with a working count, there is a next page exactly when rows remain after this one |
| Pagination.RowIsOnItsPage | utils/pagination.py:33-45 | with a working count, row i is on page `i / per_page + 1`, which exists |
| Pagination.ItemOnPage | utils/pagination.py:33 | position k of a page holds row `(page-1)*per_page + k` |
| Pagination.PageOfRowInRange | utils/pagination.py:44 | the page of a row is one of the pages |
| Pagination.CountEstimate | utils/pagination.py:37-41 | when the count raises, the total is the rows before the page plus the rows on it |
| Pagination.PaginateResponse | utils/pagination.py:63-80 | the serializer applied to each item in order; the pagination block unchanged |
| Monitoring.Recorded | utils/monitoring.py:38-46 | one more request and its duration; the slow count raised exactly for a slow request; consistency kept |
| Monitoring.RecordedAllFromZero | utils/monitoring.py:30-46 | from a first sighting: the count, total time, slow count and average of the requests seen |
| Monitoring.PerformanceMonitor.constructor | utils/monitoring.py:18-24 | all counters zero and no endpoint |
| Monitoring.PerformanceMonitor.RecordRequest | utils/monitoring.py:26-50 | the total rises by one, the slow and failed counters by one exactly when the request is slow or failed; the endpoint's stats are recorded and the invariant kept |
| Monitoring.RecordedStatus | utils/monitoring.py:73-116 | the tuple's second element, else 200; 500 when the view raises |
| Monitoring.EndpointName | utils/monitoring.py:91 | the endpoint, or the path when there is none |
| Monitoring.PerformanceLogging | utils/monitoring.py:61-118 | every request is recorded once, under its endpoint (or path): one more request, slow and failed counters raised exactly for a slow or failing one, and the endpoint's statistics updated; a raising view counts as failed |
| Monitoring.Redact | utils/monitoring.py:152-153 | the same keys; the sensitive values masked and the others unchanged |
| Monitoring.RedactHides | utils/monitoring.py:152-153 | bodies differing only under sensitive keys log the same; redacting twice is redacting once |
| Monitoring.CountOfType | utils/monitoring.py:221-223 | never more than the entries |
| Monitoring.TypeCounts | utils/monitoring.py:220-223 | a type is present exactly when it occurs, with its number of entries |
| Monitoring.CountPositiveIff | utils/monitoring.py:221-223 | a type counts exactly when some entry has it |
| Monitoring.TypeCountsSum | utils/monitoring.py:220-227 | the `by_type` counts sum to `total_errors` |
| Monitoring.LastEntries | utils/monitoring.py:216 | `errors[-limit:]`: the last `limit` entries; the whole list for 0; a negative limit drops entries from the front |
| Monitoring.ErrorTracker.constructor | utils/monitoring.py:183-185 | an empty buffer |
| Monitoring.ErrorTracker.LogError | utils/monitoring.py:187-206 | the new entry is last; the buffer keeps the latest 100 in order |
| Monitoring.ErrorTracker.RecentErrors | utils/monitoring.py:214-216 | the last `limit` entries in order; the whole list for limit 0 |
| Monitoring.ErrorTracker.GetErrorStats | utils/monitoring.py:218-229 | the number of entries, the per-type counts and the last five |
| Chat.MentionsAnyIff | routes/chat.py:136 | some keyword occurs anywhere in the text, inside a longer word too |
| Chat.TopicOfChosen | routes/chat.py:136-238 | the general reply exactly when no group is mentioned; otherwise the first group mentioned |
| Chat.FallbackIsFirstMentioned | routes/chat.py:131-247 | on the lowercased message, the reply of the first group in source order that it mentions, else the default |
| Chat.AiGroupReached | routes/chat.py:168 | a message that mentions none of the first three groups and holds "ai" anywhere gets the AI-features reply |
| Chat.EmailGetsAiReply | routes/chat.py:180 | a message reading "email" gets the AI-features reply, not the contact one, because "ai" occurs inside it |
| Chat.ContextLines | routes/chat.py:66-69 | one line per entry of the last six, in order, "User" exactly for sender `user` |
| Chat.BuildContext | routes/chat.py:65-69 | the loop writes the context lines in order |
| Chat.Answering | routes/chat.py:82-103 | the first model that answers; every earlier model failed |
| Chat.FirstAnswer | routes/chat.py:82-99 | no answer exactly when every model fails; otherwise the trimmed answer of the first that answers |
| Chat.TryModels | routes/chat.py:59-103 | the loop stops at the first model that answers |
| Chat.HandleChat | routes/chat.py:39-128 | no body fails; a blank message is refused; without a key the canned reply; otherwise the first non-blank model answer, else the canned reply |
| Dashboard.ShortlistRate | routes/dashboard.py:66 | 0 without candidates; within 0..100; 100 when all are shortlisted |
| Dashboard.CreatedAgoBuckets | routes/dashboard.py:129-139 | "Today" exactly for day 0; 2-6 days as "N days ago"; 7-13 as "1 week ago"; from 14 on the whole weeks elapsed, in digits that read back as that number |
| Dashboard.TimeAgoUnits | routes/dashboard.py:193-200 | the number shown lies within its unit: 0-59 seconds, 1-59 minutes, 1-23 hours, or at least one day; the job labels, lines 229-236, differ only in the hour unit |
| Dashboard.RecentJobs | routes/dashboard.py:116-149 | a card for each of the five newest jobs, in order; the department is never empty |
| Dashboard.ResumeEntries | routes/dashboard.py:203-218 | one entry when completed plus one when shortlisted, all with the resume's age label |
| Dashboard.ResumeFeed | routes/dashboard.py:190-218 | at most two entries per resume |
| Dashboard.JobFeed | routes/dashboard.py:226-243 | one entry per job |
| Dashboard.Feed | routes/dashboard.py:180-243 | no more entries than two per recent resume and one per recent job |
| Dashboard.ResumeLoop | routes/dashboard.py:190-218 | the first loop builds the resumes' entries |
| Dashboard.JobLoop | routes/dashboard.py:226-243 | the second loop appends the jobs' entries |
| Dashboard.RecentActivity | routes/dashboard.py:180-247 | the feed sorted by its label and cut to eight |
| Dashboard.RecentActivityShown | routes/dashboard.py:246-247 | at most eight, ordered by label text, each from the feed; all of them when there are at most eight |
| Dashboard.TextualOrderIsNotAge | routes/dashboard.py:246 | sorting by label is not sorting by age |
| Auth.NormalEmailBlank | routes/auth.py:39 | the normalised address is empty exactly for a blank input; login and the OAuth callback normalise the same way |
| Auth.NormalEmailIsNormal | routes/auth.py:39 | a non-empty normalisation is in normal form |
| Auth.NormalEmailIdempotent | routes/auth.py:39 | normalising twice is normalising once |
| Auth.NormalIsFixed | routes/auth.py:39 | an address in normal form is its own normalisation |
| Auth.UserByEmail | routes/auth.py:118 | the first account with the address; none exactly when no account has it |
| Auth.ActiveNewestFirst | routes/auth.py:159 | exactly the user's active sessions, newest first |
| Auth.DecreasingUnique | routes/auth.py:159 | two newest-first lists of the same sessions are equal |
| Auth.Capped | routes/auth.py:160-163 | the store keeps its length |
| Auth.KeptMembers | routes/auth.py:160-163 | after the cap a session is active for the user exactly when it was among the four newest |
| Auth.OtherMembers | routes/auth.py:160-163 | the cap leaves other users' sessions alone |
| Auth.CappedKeepsNewest | routes/auth.py:159-163 | the user's active sessions after the cap are the four newest of before; other users' are unchanged |
| Auth.SessionCap | routes/auth.py:159-174 | after the cap and the new session, the user's active sessions are the new one and the four newest of before, so at most five; the OAuth callback runs the same code |
| Auth.LoggedOut | routes/auth.py:229 | the store keeps its length |
| Auth.LogoutEndsSessions | routes/auth.py:229 | the user has no active session left; other users' are unchanged |
| Auth.UpdateKeepsValid | routes/auth.py:146-156 | rewriting an account without changing its address keeps the addresses normal and unique |
| Auth.AddKeepsValid | routes/auth.py:51-64 | adding an unregistered normal address keeps the addresses unique |
| Auth.CapKeepsOwners | routes/auth.py:159-174 | the cap and a new session keep every session owned by an account |
| Auth.AppendSession | routes/auth.py:76-85 | a new session of an existing account keeps every session owned |
| Auth.LogoutKeepsOwners | routes/auth.py:229 | logout changes no session's owner |
| Auth.CheckLogin | routes/auth.py:115-143 | an accepted or counted account is one of the store's |
| Auth.LoginChecksInOrder | routes/auth.py:115-143 | missing fields are refused before any lookup; a locked account before the password; a wrong password counts a failure only for an existing account; an inactive account only after a correct password |
| Auth.AuthStore.CapSessions | routes/auth.py:159-163 | the loop revokes `active_sessions[4:]`; accounts unchanged |
| Auth.AuthStore.StartSession | routes/auth.py:149-174 | the account gets the login fields; the cap then one new active session, so the user has at most five |
| Auth.AuthStore.CountFailure | routes/auth.py:130-132 | one more failed login on the account, nothing else |
| Auth.AuthStore.ResetFailures | routes/auth.py:146 | the failure count back to zero, nothing else |
| Auth.AuthStore.AccountFor | routes/auth.py:355-369 | the registered account for the address, or a new one added at the end |
| Auth.AuthStore.Signup | routes/auth.py:34-98 | refused for an invalid address or password or a registered address, changing nothing; otherwise one new starter account and its session |
| Auth.AuthStore.Login | routes/auth.py:109-187 | each check's outcome; a wrong password counts a failure on an existing account; success resets the count, records the login and caps the sessions |
| Auth.AuthStore.OAuthCallback | routes/auth.py:326-406 | token, configuration, verification and address checked in order, changing nothing on refusal; otherwise the account found or created, the login recorded, the sessions capped and a session tagged with the provider |
| Auth.AuthStore.Logout | routes/auth.py:224-242 | every session of the user deactivated; the refresh token and its expiry cleared |

## Left out

- Text extraction from PDF and DOCX files and the email and phone regexes are parameters of the parser.
- The AI models (Gemini), prompt building and `json.loads`/`json.dumps` are parameters: a reply is text or a failure, and the JSON reader gives a value or fails.
- The smart-quote replacements of the question cleaning are not modelled. As written, one is an identity and the other a garbled literal.
- Timestamps are opaque values. Clocks, ISO-8601 parsing and the cache's expiry times are not modelled, and cache entries never expire.
- Database sessions, commit and rollback, Flask requests and responses, JWT creation, hashing, random tokens and HTTP status codes are left out. Outcomes are datatypes, and tokens and hashes are parameters.
- Exceptions from the database and a request without a JSON body are left out, apart from the chat route's missing body.
- Logging, the audit log and printing are left out.
- Floating point is modelled as exact `real`. The `.1f` formatting of summaries and the rounding for display are left out. NaN and infinite values are not modelled: `float()` accepts "nan" and "inf" in an AI reply, and `min(max(nan, 0), 100)` stays NaN, so the 0..100 score bounds hold for finite scores only.
- AiScorer.AiResult, AiScorer.Clamp, AiScorer.ScoreResume and ResumeRecords.Score: the 0..100 bound is proved over exact reals; a "SCORE: nan" reply would store NaN in the program.
- Races between concurrent requests are not modelled.
- `get_resume` and `delete_resume` (a lookup and a file removal) are not modelled. Nor are `/me`, `/refresh`, `/sessions`, `/revoke_session` and `/validate` of the auth routes, or the rate limiter decorator.
- The account lock: `User.is_locked`, `increment_failed_login`, `reset_failed_login` and `check_password` are not part of this model. The lock is a flag on the account, the failure counter is a number, and the password check is a parameter. The remaining-minutes text of the locked reply is left out.
- `validate_email` and `validate_password` are parameters of signup.
- Accounts are identified by their position in the store. Sessions are stored in creation order, so "most recent" means later in the store.
- The Redis cache is maps with no expiry; the device binding, session, violation gauge and flag are per interview.
- A candidate row without an email refuses access. The route would raise on it.
- Rows of `ai_questions` and `ai_analysis` that do not parse as JSON are left out, and so are list elements that are not objects.
- Canned chat replies are named by their topic rather than spelled out.
- Request fields that are present but null, or of the wrong JSON type, are left out: an `Option` field of the model means the key is absent, and `None` takes the route's default. In the program `data.get(k, default)` returns `None` for a present null, and the routes then raise. This covers `.strip()` on the signup, login and OAuth fields (routes/auth.py lines 39-42, 112 and 346) and on the submitted answer (routes/ai_interviews.py line 276), the chat message, and a non-object request body for the redaction.
- AiInterviews.InterviewRoom.LogActivity: for a null `event_type` the program writes the cache session's last event and the violation gauge, then raises at `.startswith` (routes/ai_interviews.py line 527) and rolls back, leaving that partial cache write and no log entry. The model reads `None` as an absent key and logs an "unknown" event.
- Dashboard caching and the statistics queries, apart from the shortlist rate, are not modelled. Query results are inputs in query order.
- The `after_request` hook, which records a request a second time, is not modelled.
- Request argument defaults of `paginate` are left out. `Pagination.Paginate` refuses a page size that is not positive: the source divides by zero for 0 and passes a negative LIMIT to the database.
- A null or non-numeric score returned by the AI for an answer is left out; scores are reals.
- Case mapping, word characters and digits are ASCII in the model; Python's `str.lower`/`str.upper` and the regex classes `\b`, `\w` and `\d` follow Unicode. The members below, and their callers (`ResumeParser.Parse`, `AiInterviews.AccessAnswer` and `InterviewRoom.VerifyAccess`, `Chat.HandleChat`, `Auth.NormalEmail` and the login, signup and OAuth methods), agree with the program on ASCII text only.
- ResumeParser.ExtractLocation: Python lowers "DELHİ" (dotted capital I) to a text holding "delhi" and finds the city; the model's ASCII lowering does not.
- ResumeParser.FindSkills: the `\b` anchors use ASCII word characters, so the model finds Go in "ágo", where Python does not.
- ResumeParser.ExtractSkills: ASCII lowering and anchors; Python lowers the Kelvin sign in "\u212AUBERNETES" to "k" and finds Kubernetes, the model does not.
- ResumeParser.ExtractExperienceYears: `\d` is ASCII here; Python also matches other decimal digits, such as Arabic-Indic ones, and reads "٥ years" as 5.0.
- ResumeParser.NoDigitsNoExperience: "digit" means an ASCII digit; text with only non-ASCII decimal digits can give experience in Python.
- AiScorer.ParseExperienceRequirement: `\d` is ASCII here; Python reads "٣+ years" as 3.
- AiInterviews.AccessGranted: the email and code comparisons use ASCII case mapping; Python upper-cases "ß" to "SS", so a code "ß" matches a stored "SS" there and not here.
- AiInterviews.CodeNormalised: holds for ASCII case mapping; in Python the Kelvin sign lowers to "k" and upper-cases to "K", so it is not a fixed point there.
- AiInterviews.InterviewRoom.VerifyAccess: its access answer inherits the ASCII case mapping of `AccessAnswer`.
- Chat.FallbackIsFirstMentioned: the message is lowered over ASCII only; Python lowers "TAL\u212A" to "talk" and picks the contact reply.
- Auth.NormalIsFixed: "normal" means no ASCII upper-case letter; Python lowers "\u212A@x.io" to "k@x.io", so that address is looked up as "k@x.io" there.
- The "processing" value written between the two commits of `process_resume` is not kept: the model goes from the state before processing straight to the final one.
- Where the code and the design description differ, the model follows the code:
  - `process_resume` does not re-check the status and overwrites values already on the record;
  - `submit_answer` accepts answers after completion;
  - the OAuth callback does not consult the lock or active flags;
  - the signup session is not capped.
