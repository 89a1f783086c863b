/** The dashboard's derived figures: the four summary counts, the five most
    recent candidates and the first five active jobs. A table that has not
    been read yet is `None`. */
module DashboardPage {
  import opened Common
  import opened Records

  datatype Stats = Stats(totalJobs: nat, activeJobs: nat, totalCandidates: nat, hired: nat)

  /** The number of entries the dashboard lists. */
  const ListLength: nat := 5

  function ActiveJobsOf(jobs: seq<Job>): seq<Job> {
    if jobs == [] then []
    else (if jobs[0].status == "active" then [jobs[0]] else []) + ActiveJobsOf(jobs[1..])
  }

  function HiredOf(cands: seq<Candidate>): seq<Candidate> {
    if cands == [] then []
    else (if cands[0].stage == "Hired" then [cands[0]] else []) + HiredOf(cands[1..])
  }

  lemma {:induction false} ActiveJobsOfMembers(jobs: seq<Job>, j: Job)
    ensures j in ActiveJobsOf(jobs) <==> j in jobs && j.status == "active"
    ensures |ActiveJobsOf(jobs)| <= |jobs|
  {
    if jobs != [] {
      ActiveJobsOfMembers(jobs[1..], j);
      assert jobs == [jobs[0]] + jobs[1..];
    }
  }

  lemma {:induction false} HiredOfMembers(cands: seq<Candidate>, c: Candidate)
    ensures c in HiredOf(cands) <==> c in cands && c.stage == "Hired"
    ensures |HiredOf(cands)| <= |cands|
  {
    if cands != [] {
      HiredOfMembers(cands[1..], c);
      assert cands == [cands[0]] + cands[1..];
    }
  }

  /** The summary cards: all zero until both tables are read. */
  function DashboardStats(jobs: Option<seq<Job>>, cands: Option<seq<Candidate>>): Stats {
    if jobs.None? || cands.None? then Stats(0, 0, 0, 0)
    else Stats(|jobs.value|, |ActiveJobsOf(jobs.value)|, |cands.value|, |HiredOf(cands.value)|)
  }

  /** The cards count what they say and never exceed their totals. */
  lemma StatsCounts(jobs: Option<seq<Job>>, cands: Option<seq<Candidate>>)
    ensures (jobs.None? || cands.None?) ==> DashboardStats(jobs, cands) == Stats(0, 0, 0, 0)
    ensures jobs.Some? && cands.Some? ==>
      var st := DashboardStats(jobs, cands);
      st.totalJobs == |jobs.value| && st.totalCandidates == |cands.value| &&
      st.activeJobs <= st.totalJobs && st.hired <= st.totalCandidates &&
      (forall j :: j in ActiveJobsOf(jobs.value) <==> j in jobs.value && j.status == "active") &&
      (forall c :: c in HiredOf(cands.value) <==> c in cands.value && c.stage == "Hired")
  {
    if jobs.Some? && cands.Some? {
      ActiveJobsOfMembers(jobs.value, Job(0, "", "", "", 0, [], None));
      HiredOfMembers(cands.value, Candidate(0, "", "", "", None, [], []));
      forall j ensures j in ActiveJobsOf(jobs.value) <==> j in jobs.value && j.status == "active" {
        ActiveJobsOfMembers(jobs.value, j);
      }
      forall c ensures c in HiredOf(cands.value) <==> c in cands.value && c.stage == "Hired" {
        HiredOfMembers(cands.value, c);
      }
    }
  }

  /** The sort key of `(a, b) => b.id - a.id`: descending ids. */
  function NewestFirstKey(c: Candidate): int {
    -(c.id as int)
  }

  function Min(a: nat, b: nat): nat {
    if a <= b then a else b
  }

  /** A copy of the candidates sorted by descending id, cut to five. */
  function RecentCandidates(cands: Option<seq<Candidate>>): seq<Candidate> {
    if cands.None? then []
    else
      var sorted := SortByKey(cands.value, NewestFirstKey);
      SortByKeyProperties(cands.value, NewestFirstKey);
      sorted[..Min(ListLength, |sorted|)]
  }

  /** In a newest-first sequence, everything before a cut is at least as
      new as everything after it. */
  lemma {:induction false} NewestFirstCut(sorted: seq<Candidate>, n: nat)
    requires SortedByKey(sorted, NewestFirstKey) && n <= |sorted|
    ensures forall x, y :: x in sorted[..n] && y in sorted[n..] ==> y.id <= x.id
    ensures forall i, j :: 0 <= i < j < n ==> sorted[j].id <= sorted[i].id
  {
    forall x, y | x in sorted[..n] && y in sorted[n..]
      ensures y.id <= x.id
    {
      var i :| 0 <= i < n && sorted[..n][i] == x;
      var j :| 0 <= j < |sorted| - n && sorted[n..][j] == y;
      assert NewestFirstKey(sorted[i]) <= NewestFirstKey(sorted[n + j]);
    }
    forall i, j | 0 <= i < j < n
      ensures sorted[j].id <= sorted[i].id
    {
      assert NewestFirstKey(sorted[i]) <= NewestFirstKey(sorted[j]);
    }
  }

  /** The candidates the recent list leaves out. */
  function RecentLeftOut(cands: seq<Candidate>): seq<Candidate> {
    var sorted := SortByKey(cands, NewestFirstKey);
    SortByKeyProperties(cands, NewestFirstKey);
    sorted[Min(ListLength, |sorted|)..]
  }

  /** The recent list holds at most five candidates, newest first, and no
      candidate left out has a larger id than one shown; together with those
      left out it is exactly the candidates read. */
  lemma RecentCandidatesAreTheNewest(cands: seq<Candidate>)
    ensures |RecentCandidates(Some(cands))| == Min(ListLength, |cands|)
    ensures forall i, j :: 0 <= i < j < |RecentCandidates(Some(cands))| ==>
      RecentCandidates(Some(cands))[j].id <= RecentCandidates(Some(cands))[i].id
    ensures multiset(RecentCandidates(Some(cands))) + multiset(RecentLeftOut(cands)) == multiset(cands)
    ensures forall x, y :: x in RecentCandidates(Some(cands)) && y in RecentLeftOut(cands) ==> y.id <= x.id
  {
    var sorted := SortByKey(cands, NewestFirstKey);
    SortByKeyProperties(cands, NewestFirstKey);
    var n := Min(ListLength, |sorted|);
    NewestFirstCut(sorted, n);
    assert sorted == sorted[..n] + sorted[n..];
  }

  /** The first five active jobs, in table order. */
  function ActiveJobs(jobs: Option<seq<Job>>): seq<Job> {
    if jobs.None? then []
    else
      var active := ActiveJobsOf(jobs.value);
      active[..Min(ListLength, |active|)]
  }

  lemma ActiveJobsIsAPrefix(jobs: seq<Job>)
    ensures var r := ActiveJobs(Some(jobs));
      |r| == Min(ListLength, |ActiveJobsOf(jobs)|) &&
      r == ActiveJobsOf(jobs)[..|r|] &&
      forall j :: j in r ==> j in jobs && j.status == "active"
    ensures ActiveJobs(None) == [] && RecentCandidates(None) == []
  {
    var active := ActiveJobsOf(jobs);
    forall j | j in ActiveJobs(Some(jobs))
      ensures j in jobs && j.status == "active"
    {
      ActiveJobsOfMembers(jobs, j);
    }
  }
}
