/** The mock HTTP server: two in-memory collections (jobs and candidates)
    with auto-assigned ids starting at 1, the fixture factories and seed, and
    the route handlers. A PATCH that changes a candidate's stage appends one
    timeline entry; an unknown id is answered with a 404 and changes nothing. */
module MockServer {
  import opened Common
  import opened Records

  /** A handler's answer: a record (status 200) or a 404 with its error body. */
  datatype Reply<T> = Found(value: T) | NotFound(error: string)

  const JobNotFound: string := "Job not found"
  const CandidateNotFound: string := "Candidate not found"

  /** The body of `POST /jobs`. */
  datatype JobAttrs = JobAttrs(title: string, slug: string, status: string, order: int, tags: seq<string>)

  /** The attributes a PATCH body may carry; `None` means the key is absent. */
  datatype JobPatch = JobPatch(
    title: Option<string>, slug: Option<string>, status: Option<string>,
    order: Option<int>, tags: Option<seq<string>>)

  datatype CandidatePatch = CandidatePatch(
    name: Option<string>, email: Option<string>, stage: Option<string>,
    timeline: Option<seq<TimelineEntry>>)

  function Pick<T>(sent: Option<T>, stored: T): T {
    if sent.Some? then sent.value else stored
  }

  /** `model.update(attrs)`: every sent attribute overwrites the stored one. */
  function MergeJob(j: Job, p: JobPatch): Job {
    j.(title := Pick(p.title, j.title), slug := Pick(p.slug, j.slug), status := Pick(p.status, j.status),
       order := Pick(p.order, j.order), tags := Pick(p.tags, j.tags))
  }

  function MergeCandidate(c: Candidate, p: CandidatePatch): Candidate {
    c.(name := Pick(p.name, c.name), email := Pick(p.email, c.email), stage := Pick(p.stage, c.stage),
       timeline := Pick(p.timeline, c.timeline))
  }

  /** The timeline rule: when the body's stage is a non-empty string that
      differs from the stored stage, the body's timeline is replaced by the
      stored timeline plus one entry for the new stage dated `now`. */
  function WithTimelineRule(c: Candidate, p: CandidatePatch, now: int): CandidatePatch {
    if p.stage.Some? && p.stage.value != "" && p.stage.value != c.stage
    then p.(timeline := Some(c.timeline + [TimelineEntry(p.stage.value, now)]))
    else p
  }

  function PatchedCandidate(c: Candidate, p: CandidatePatch, now: int): Candidate {
    MergeCandidate(c, WithTimelineRule(c, p, now))
  }

  /** A stage change appends exactly one entry, for the new stage, at the end. */
  lemma StageChangeAppendsOneEntry(c: Candidate, p: CandidatePatch, now: int)
    requires p.stage.Some? && p.stage.value != "" && p.stage.value != c.stage
    ensures PatchedCandidate(c, p, now).timeline == c.timeline + [TimelineEntry(p.stage.value, now)]
    ensures |PatchedCandidate(c, p, now).timeline| == |c.timeline| + 1
    ensures PatchedCandidate(c, p, now).stage == p.stage.value
  {
  }

  /** Without a stage, with an empty one or with the stored one, the rule adds
      nothing: the timeline is whatever the body sent, or the stored one. */
  lemma NoStageChangeKeepsTimeline(c: Candidate, p: CandidatePatch, now: int)
    requires p.stage.None? || p.stage.value == "" || p.stage.value == c.stage
    ensures PatchedCandidate(c, p, now) == MergeCandidate(c, p)
    ensures p.timeline.None? ==> PatchedCandidate(c, p, now).timeline == c.timeline
  {
  }

  /** Every attribute the body sends is in the stored record afterwards and
      every other attribute keeps its value. */
  lemma MergeCandidateSetsSentAttributes(c: Candidate, p: CandidatePatch)
    ensures var r := MergeCandidate(c, p);
      r.id == c.id && r.jobId == c.jobId && r.notes == c.notes &&
      (p.name.Some? ==> r.name == p.name.value) && (p.name.None? ==> r.name == c.name) &&
      (p.email.Some? ==> r.email == p.email.value) && (p.email.None? ==> r.email == c.email) &&
      (p.stage.Some? ==> r.stage == p.stage.value) && (p.stage.None? ==> r.stage == c.stage) &&
      (p.timeline.Some? ==> r.timeline == p.timeline.value) && (p.timeline.None? ==> r.timeline == c.timeline)
  {
  }

  lemma MergeJobSetsSentAttributes(j: Job, p: JobPatch)
    ensures var r := MergeJob(j, p);
      r.id == j.id && r.createdAt == j.createdAt &&
      (p.title.Some? ==> r.title == p.title.value) && (p.title.None? ==> r.title == j.title) &&
      (p.slug.Some? ==> r.slug == p.slug.value) && (p.slug.None? ==> r.slug == j.slug) &&
      (p.status.Some? ==> r.status == p.status.value) && (p.status.None? ==> r.status == j.status) &&
      (p.order.Some? ==> r.order == p.order.value) && (p.order.None? ==> r.order == j.order) &&
      (p.tags.Some? ==> r.tags == p.tags.value) && (p.tags.None? ==> r.tags == j.tags)
  {
  }

  // -----------------------------------------------------------------------
  // Fixtures

  const JobSeedCount: nat := 15
  const CandidateSeedCount: nat := 1000

  /** The job factory's `i`-th record (counting from 0), stored under id
      `i + 1`; `random` is the `Math.random()` draw for its status. */
  function FixtureJob(i: nat, random: real): Job {
    Job(i + 1,
        "Senior Frontend Developer " + NatToString(i + 1),
        "senior-frontend-developer-" + NatToString(i + 1),
        if random > 0.5 then "active" else "archived",
        i,
        ["React", "JavaScript"],
        None)
  }

  lemma FixtureJobShape(i: nat, random: real)
    ensures FixtureJob(i, random).order == i && FixtureJob(i, random).id == i + 1
    ensures FixtureJob(i, random).status == "active" || FixtureJob(i, random).status == "archived"
    ensures FixtureJob(i, random).tags == ["React", "JavaScript"]
    ensures FixtureJob(i, random).title[..26] == "Senior Frontend Developer "
    ensures FixtureJob(i, random).title[26..] == FixtureJob(i, random).slug[26..] == NatToString(i + 1)
  {
  }

  /** The faker and `Math.random()` draws for one fixture candidate. */
  datatype CandidateDraws = CandidateDraws(fullName: string, email: string, random: real, pastDate: int)

  predicate ValidDraws(d: CandidateDraws) {
    0.0 <= d.random < 1.0
  }

  /** The candidate factory: a random stage, the e-mail lower-cased, and a
      one-entry timeline whose stage is the candidate's stage. */
  function FixtureCandidate(id: Id, d: CandidateDraws): Candidate
    requires ValidDraws(d)
  {
    var stage := Stages[(d.random * (|Stages| as real)).Floor];
    Candidate(id, d.fullName, Lower(d.email), stage, None, [TimelineEntry(if stage != "" then stage else "Applied", d.pastDate)], [])
  }

  lemma FixtureCandidateShape(id: Id, d: CandidateDraws)
    requires ValidDraws(d)
    ensures FixtureCandidate(id, d).stage in Stages
    ensures FixtureCandidate(id, d).timeline == [TimelineEntry(FixtureCandidate(id, d).stage, d.pastDate)]
  {
  }

  class Server {
    var jobs: map<Id, Job>
    var candidates: map<Id, Candidate>
    var nextJobId: nat
    var nextCandidateId: nat

    /** Ids are assigned from 1 upwards and every record carries its own id. */
    ghost predicate Valid() reads this {
      nextJobId >= 1 && nextCandidateId >= 1 &&
      (forall k :: k in jobs ==> 1 <= k < nextJobId && jobs[k].id == k) &&
      (forall k :: k in candidates ==> 1 <= k < nextCandidateId && candidates[k].id == k)
    }

    /** The seeded server: 15 fixture jobs and 1000 fixture candidates. */
    constructor Seeded(jobRandoms: seq<real>, draws: seq<CandidateDraws>)
      requires |jobRandoms| == JobSeedCount && |draws| == CandidateSeedCount
      requires forall i :: 0 <= i < |draws| ==> ValidDraws(draws[i])
      ensures Valid()
      ensures forall k :: k in jobs <==> 1 <= k <= JobSeedCount
      ensures forall k :: k in candidates <==> 1 <= k <= CandidateSeedCount
      ensures forall i :: 0 <= i < JobSeedCount ==> jobs[i + 1] == FixtureJob(i, jobRandoms[i])
      ensures forall i :: 0 <= i < CandidateSeedCount ==> candidates[i + 1] == FixtureCandidate(i + 1, draws[i])
      ensures nextJobId == JobSeedCount + 1 && nextCandidateId == CandidateSeedCount + 1
      ensures forall k: Id :: GetJob(k).Found? <==> 1 <= k <= JobSeedCount
      ensures forall i :: 0 <= i < JobSeedCount ==> GetJob(i + 1) == Found(FixtureJob(i, jobRandoms[i]))
      ensures forall k: Id :: GetCandidate(k).Found? <==> 1 <= k <= CandidateSeedCount
      ensures forall i :: 0 <= i < CandidateSeedCount ==> GetCandidate(i + 1) == Found(FixtureCandidate(i + 1, draws[i]))
    {
      var js: map<Id, Job> := map[];
      var i := 0;
      while i < JobSeedCount
        invariant 0 <= i <= JobSeedCount
        invariant forall k :: k in js <==> 1 <= k <= i
        invariant forall j :: 0 <= j < i ==> js[j + 1] == FixtureJob(j, jobRandoms[j])
      {
        js := js[i + 1 := FixtureJob(i, jobRandoms[i])];
        i := i + 1;
      }
      var cs: map<Id, Candidate> := map[];
      i := 0;
      while i < CandidateSeedCount
        invariant 0 <= i <= CandidateSeedCount
        invariant forall k :: k in cs <==> 1 <= k <= i
        invariant forall j :: 0 <= j < i ==> cs[j + 1] == FixtureCandidate(j + 1, draws[j])
      {
        cs := cs[i + 1 := FixtureCandidate(i + 1, draws[i])];
        i := i + 1;
      }
      jobs := js;
      candidates := cs;
      nextJobId := JobSeedCount + 1;
      nextCandidateId := CandidateSeedCount + 1;
      new;
      forall k | k in jobs
        ensures jobs[k].id == k
      {
        assert jobs[(k - 1) + 1] == FixtureJob(k - 1, jobRandoms[k - 1]);
      }
      forall k | k in candidates
        ensures candidates[k].id == k
      {
        assert candidates[(k - 1) + 1] == FixtureCandidate(k, draws[k - 1]);
      }
      forall i | 0 <= i < JobSeedCount
        ensures GetJob(i + 1) == Found(FixtureJob(i, jobRandoms[i]))
      {
        assert i + 1 in jobs;
      }
      forall i | 0 <= i < CandidateSeedCount
        ensures GetCandidate(i + 1) == Found(FixtureCandidate(i + 1, draws[i]))
      {
        assert i + 1 in candidates;
      }
    }

    /** `GET /jobs`. */
    function AllJobs(): seq<Job> reads this {
      Rows(jobs, 1, nextJobId)
    }

    /** `GET /candidates`. */
    function AllCandidates(): seq<Candidate> reads this {
      Rows(candidates, 1, nextCandidateId)
    }

    /** `GET /jobs/:id`. */
    function GetJob(id: Id): (r: Reply<Job>)
      reads this
      ensures id in jobs <==> r.Found?
      ensures r.Found? ==> r.value == jobs[id]
      ensures r.NotFound? ==> r.error == JobNotFound
    {
      if id in jobs then Found(jobs[id]) else NotFound(JobNotFound)
    }

    /** `GET /candidates/:id`. */
    function GetCandidate(id: Id): (r: Reply<Candidate>)
      reads this
      ensures id in candidates <==> r.Found?
      ensures r.Found? ==> r.value == candidates[id]
      ensures r.NotFound? ==> r.error == CandidateNotFound
    {
      if id in candidates then Found(candidates[id]) else NotFound(CandidateNotFound)
    }

    /** `POST /jobs`: store the body under the next id. */
    method PostJob(attrs: JobAttrs) returns (job: Job)
      requires Valid()
      modifies this
      ensures Valid()
      ensures job == Job(old(nextJobId), attrs.title, attrs.slug, attrs.status, attrs.order, attrs.tags, None)
      ensures old(nextJobId) !in old(jobs)
      ensures jobs == old(jobs)[old(nextJobId) := job] && nextJobId == old(nextJobId) + 1
      ensures candidates == old(candidates) && nextCandidateId == old(nextCandidateId)
      ensures GetJob(job.id) == Found(job)
      ensures forall k :: k != job.id ==> GetJob(k) == old(GetJob(k))
      ensures AllJobs() == old(AllJobs()) + [job]
    {
      job := Job(nextJobId, attrs.title, attrs.slug, attrs.status, attrs.order, attrs.tags, None);
      RowsIgnoresOutside(jobs, nextJobId, job, 1, nextJobId);
      jobs := jobs[nextJobId := job];
      RowsSplit(jobs, 1, nextJobId, nextJobId + 1);
      assert Rows(jobs, nextJobId, nextJobId + 1) == [job];
      nextJobId := nextJobId + 1;
    }

    /** `PATCH /jobs/:id`. */
    method PatchJob(id: Id, p: JobPatch) returns (r: Reply<Job>)
      requires Valid()
      modifies this
      ensures Valid()
      ensures id !in old(jobs) ==> r == NotFound(JobNotFound) && jobs == old(jobs)
      ensures id in old(jobs) ==> r == Found(MergeJob(old(jobs)[id], p)) && jobs == old(jobs)[id := r.value]
      ensures candidates == old(candidates) && nextJobId == old(nextJobId) && nextCandidateId == old(nextCandidateId)
      ensures r.Found? ==> GetJob(id) == r
      ensures forall k :: k != id ==> GetJob(k) == old(GetJob(k))
    {
      if id !in jobs {
        return NotFound(JobNotFound);
      }
      var updated := MergeJob(jobs[id], p);
      jobs := jobs[id := updated];
      r := Found(updated);
    }

    /** `PATCH /candidates/:id`; `now` is the handler's `new Date()`. */
    method PatchCandidate(id: Id, p: CandidatePatch, now: int) returns (r: Reply<Candidate>)
      requires Valid()
      modifies this
      ensures Valid()
      ensures id !in old(candidates) ==> r == NotFound(CandidateNotFound) && candidates == old(candidates)
      ensures id in old(candidates) ==>
        r == Found(PatchedCandidate(old(candidates)[id], p, now)) && r.value.id == id &&
        candidates == old(candidates)[id := r.value]
      ensures jobs == old(jobs) && nextJobId == old(nextJobId) && nextCandidateId == old(nextCandidateId)
      ensures r.Found? ==> GetCandidate(id) == r
      ensures forall k :: k != id ==> GetCandidate(k) == old(GetCandidate(k))
    {
      if id !in candidates {
        return NotFound(CandidateNotFound);
      }
      var stored := candidates[id];
      var attrs := p;
      if p.stage.Some? && p.stage.value != "" && p.stage.value != stored.stage {
        attrs := p.(timeline := Some(stored.timeline + [TimelineEntry(p.stage.value, now)]));
      }
      var updated := MergeCandidate(stored, attrs);
      candidates := candidates[id := updated];
      r := Found(updated);
    }
  }
}
