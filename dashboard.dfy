/** The dashboard routes: the shortlist rate, the age labels of jobs and
    activities, the recent-jobs cards and the recent-activity feed. The
    query results are inputs, already in the order the queries return
    them; ages are seconds elapsed since creation. */
module Dashboard {
  import opened Wrappers
  import opened Strings
  import opened Seqs
  import opened Ordering

  /** The shortlisted share of a user's candidates, in percent; 0 without
      candidates. */
  function ShortlistRate(shortlisted: nat, total: nat): (r: real)
    ensures total == 0 ==> r == 0.0
    ensures shortlisted <= total ==> 0.0 <= r <= 100.0
    ensures total > 0 && shortlisted == total ==> r == 100.0
  {
    if total > 0 then
      var q := shortlisted as real / total as real;
      assert shortlisted <= total ==> q <= 1.0 by {
        if shortlisted <= total {
          assert q * total as real == shortlisted as real;
        }
      }
      q * 100.0
    else 0.0
  }

  // ---------------------------------------------------------------------
  // Age labels

  /** An integer in decimal, with a minus sign when negative. */
  function IntText(n: int): string {
    if n < 0 then "-" + NatToString(-n) else NatToString(n)
  }

  /** Python's `int(x)`: the integer part, rounded toward zero. */
  function Trunc(x: real): int {
    if x >= 0.0 then x.Floor else -((-x).Floor)
  }

  /** `timedelta.days`: whole days elapsed, rounded down. */
  function DaysOf(seconds: real): int {
    (seconds / 86400.0).Floor
  }

  /** `created_ago` of a job card. */
  function CreatedAgo(days: int): string {
    if days == 0 then "Today"
    else if days == 1 then "1 day ago"
    else if days < 7 then IntText(days) + " days ago"
    else if days < 14 then "1 week ago"
    else IntText(days / 7) + " weeks ago"
  }

  /** "Today" means no whole day has passed; from two weeks on the label
      gives the whole weeks elapsed, in digits that read back as that
      number. */
  lemma CreatedAgoBuckets(days: int)
    ensures CreatedAgo(days) == "Today" <==> days == 0
    ensures 2 <= days < 7 ==> CreatedAgo(days) == NatToString(days) + " days ago"
    ensures 7 <= days < 14 ==> CreatedAgo(days) == "1 week ago"
    ensures days >= 14 ==>
              var w := days / 7;
              && 2 <= w && w * 7 <= days < w * 7 + 7
              && CreatedAgo(days) == NatToString(w) + " weeks ago"
              && DigitsValue(NatToString(w)) == w
  {
    if days >= 14 {
      NatToStringRoundTrip(days / 7);
    }
  }

  /** `time_ago` of an activity; `hourUnit` is " hour ago" for resumes and
      " hours ago" for jobs. */
  function TimeAgo(seconds: real, hourUnit: string): string {
    if seconds < 60.0 then IntText(Trunc(seconds)) + " sec ago"
    else if seconds < 3600.0 then IntText(Trunc(seconds / 60.0)) + " min ago"
    else if seconds < 86400.0 then IntText(Trunc(seconds / 3600.0)) + hourUnit
    else IntText(DaysOf(seconds)) + " days ago"
  }

  /** For a non-negative age the number shown lies within its unit: 0-59
      seconds, 1-59 minutes, 1-23 hours, or at least one day. */
  lemma TimeAgoUnits(seconds: real, hourUnit: string)
    requires seconds >= 0.0
    ensures seconds < 60.0 ==>
              0 <= Trunc(seconds) < 60 && TimeAgo(seconds, hourUnit) == NatToString(Trunc(seconds)) + " sec ago"
    ensures 60.0 <= seconds < 3600.0 ==>
              1 <= Trunc(seconds / 60.0) < 60
              && TimeAgo(seconds, hourUnit) == NatToString(Trunc(seconds / 60.0)) + " min ago"
    ensures 3600.0 <= seconds < 86400.0 ==>
              1 <= Trunc(seconds / 3600.0) < 24
              && TimeAgo(seconds, hourUnit) == NatToString(Trunc(seconds / 3600.0)) + hourUnit
    ensures seconds >= 86400.0 ==>
              DaysOf(seconds) >= 1 && TimeAgo(seconds, hourUnit) == NatToString(DaysOf(seconds)) + " days ago"
  {
  }

  // ---------------------------------------------------------------------
  // Recent jobs

  /** A job as the queries see it: its row, its age and its resume counts. */
  datatype JobRow = JobRow(
    id: nat,
    title: string,
    department: Option<string>,
    status: string,
    ageSeconds: real,
    candidates: nat,
    shortlisted: nat)

  datatype JobCard = JobCard(
    id: nat,
    title: string,
    department: string,
    candidates: nat,
    shortlisted: nat,
    status: string,
    createdAgo: string)

  /** `x or 'General'` for the department. */
  function DepartmentOf(j: JobRow): string {
    if j.department.Some? && j.department.value != "" then j.department.value else "General"
  }

  function Card(j: JobRow): JobCard {
    JobCard(j.id, j.title, DepartmentOf(j), j.candidates, j.shortlisted, Capitalize(j.status),
            CreatedAgo(DaysOf(j.ageSeconds)))
  }

  /** `get_recent_jobs`: a card for each of the five newest jobs, in order. */
  method RecentJobs(jobs: seq<JobRow>) returns (cards: seq<JobCard>)
    ensures |cards| == if |jobs| <= 5 then |jobs| else 5
    ensures forall i :: 0 <= i < |cards| ==> cards[i] == Card(jobs[i])
    ensures forall i :: 0 <= i < |cards| ==> cards[i].department != ""
  {
    var recent := Take(jobs, 5);
    cards := [];
    var i := 0;
    while i < |recent|
      invariant 0 <= i <= |recent|
      invariant |cards| == i
      invariant forall k :: 0 <= k < i ==> cards[k] == Card(jobs[k])
    {
      cards := cards + [Card(recent[i])];
      i := i + 1;
    }
  }

  // ---------------------------------------------------------------------
  // Recent activity

  datatype Activity = Activity(action: string, detail: string, time: string, color: string)

  /** A resume as the activity query sees it. */
  datatype ResumeRow = ResumeRow(candidateName: Option<string>, processingStatus: string, status: string,
                                 ageSeconds: real)

  function NameOf(r: ResumeRow): string {
    if r.candidateName.Some? && r.candidateName.value != "" then r.candidateName.value else "Unknown"
  }

  /** The entries of one resume: "Resume processed" when its processing
      completed, then "Candidate shortlisted" when it is shortlisted. */
  function ResumeEntries(r: ResumeRow, jobTitle: string): (acts: seq<Activity>)
    ensures |acts| == (if r.processingStatus == "completed" then 1 else 0) + (if r.status == "shortlisted" then 1 else 0)
    ensures forall a :: a in acts ==> a.time == TimeAgo(r.ageSeconds, " hour ago")
  {
    var time := TimeAgo(r.ageSeconds, " hour ago");
    var detail := NameOf(r) + " - " + jobTitle;
    (if r.processingStatus == "completed" then [Activity("Resume processed", detail, time, "#FF6B35")] else [])
    + (if r.status == "shortlisted" then [Activity("Candidate shortlisted", detail, time, "#06A77D")] else [])
  }

  function JobEntry(j: JobRow): Activity {
    Activity("Job created", j.title, TimeAgo(j.ageSeconds, " hours ago"), "#004E89")
  }

  /** The entries of the resumes, resume by resume. */
  function ResumeFeed(rows: seq<(ResumeRow, string)>): (acts: seq<Activity>)
    ensures |acts| <= 2 * |rows|
  {
    if rows == [] then []
    else ResumeFeed(rows[..|rows| - 1]) + ResumeEntries(rows[|rows| - 1].0, rows[|rows| - 1].1)
  }

  /** One entry per job, in order. */
  function JobFeed(jobs: seq<JobRow>): (acts: seq<Activity>)
    ensures |acts| == |jobs|
  {
    if jobs == [] then [] else JobFeed(jobs[..|jobs| - 1]) + [JobEntry(jobs[|jobs| - 1])]
  }

  /** The entries of the ten newest resumes, then one for each of the five
      newest jobs. */
  function Feed(resumes: seq<(ResumeRow, string)>, jobs: seq<JobRow>): (acts: seq<Activity>)
    ensures |acts| <= 2 * |Take(resumes, 10)| + |Take(jobs, 5)|
  {
    var recentJobs := Take(jobs, 5);
    ResumeFeed(Take(resumes, 10)) + JobFeed(recentJobs)
  }

  function TimeOf(a: Activity): string {
    a.time
  }

  /** The first loop of `get_recent_activity`. */
  method ResumeLoop(rows: seq<(ResumeRow, string)>) returns (feed: seq<Activity>)
    ensures feed == ResumeFeed(rows)
  {
    feed := [];
    var i := 0;
    while i < |rows|
      invariant 0 <= i <= |rows|
      invariant feed == ResumeFeed(rows[..i])
    {
      var row := rows[i];
      var time := TimeAgo(row.0.ageSeconds, " hour ago");
      var detail := NameOf(row.0) + " - " + row.1;
      ghost var before := feed;
      if row.0.processingStatus == "completed" {
        feed := feed + [Activity("Resume processed", detail, time, "#FF6B35")];
      }
      if row.0.status == "shortlisted" {
        feed := feed + [Activity("Candidate shortlisted", detail, time, "#06A77D")];
      }
      assert feed == before + ResumeEntries(row.0, row.1);
      assert rows[..i + 1][..i] == rows[..i];
      i := i + 1;
    }
    assert rows[..i] == rows;
  }

  /** The second loop of `get_recent_activity`. */
  method JobLoop(feed0: seq<Activity>, jobs: seq<JobRow>) returns (feed: seq<Activity>)
    ensures feed == feed0 + JobFeed(jobs)
  {
    feed := feed0;
    var j := 0;
    while j < |jobs|
      invariant 0 <= j <= |jobs|
      invariant feed == feed0 + JobFeed(jobs[..j])
    {
      assert jobs[..j + 1][..j] == jobs[..j];
      feed := feed + [JobEntry(jobs[j])];
      j := j + 1;
    }
    assert jobs[..j] == jobs;
  }

  /** `get_recent_activity`: the feed built by the two loops, sorted by its
      time label as text, then cut to eight. */
  method RecentActivity(resumes: seq<(ResumeRow, string)>, jobs: seq<JobRow>) returns (acts: seq<Activity>)
    ensures acts == Take(SortByKey(Feed(resumes, jobs), TimeOf), 8)
  {
    var feed := ResumeLoop(Take(resumes, 10));
    feed := JobLoop(feed, Take(jobs, 5));
    acts := Take(SortByKey(feed, TimeOf), 8);
  }

  /** The feed shows at most eight entries, ordered by their labels as
      text; each is an entry of a recent resume or job, and when there are
      no more than eight entries all of them are shown. */
  lemma RecentActivityShown(resumes: seq<(ResumeRow, string)>, jobs: seq<JobRow>)
    ensures var shown := Take(SortByKey(Feed(resumes, jobs), TimeOf), 8);
            && |shown| <= 8
            && SortedByKey(shown, TimeOf)
            && (forall a :: a in shown ==> a in Feed(resumes, jobs))
            && (|Feed(resumes, jobs)| <= 8 ==> multiset(shown) == multiset(Feed(resumes, jobs)))
  {
    var feed := Feed(resumes, jobs);
    var sorted := SortByKey(feed, TimeOf);
    SortByKeyCorrect(feed, TimeOf);
    var shown := Take(sorted, 8);
    forall a | a in shown ensures a in feed {
      var k :| 0 <= k < |shown| && shown[k] == a;
      assert a in multiset(sorted);
    }
  }

  /** Sorting by the label as text does not sort by age: an entry a day
      old comes before one two seconds old, and one of ten seconds before
      one of nine. */
  lemma TextualOrderIsNotAge()
    ensures Less("1 days ago", "2 sec ago")
    ensures Less("10 sec ago", "9 sec ago")
  {
  }
}
