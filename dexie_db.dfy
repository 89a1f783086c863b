/** The browser-local store: database "TalentFlowDB", schema version 1, with
    four tables keyed by an auto-incremented integer `id`. The jobs indexes
    (title, slug, status, order), the candidates indexes (name, email, stage)
    and the responses indexes are not unique; `assessments.jobId` is.

    The tables are values (`Tables`) with one map and one key counter per
    table; `Database` is the one mutable object every other module writes
    through. Every store call takes its outcome (`ok`) as a parameter: when
    it is false the call fails with `StoreUnavailable` and writes nothing. */
module DexieDB {
  import opened Common
  import opened Records
  import opened AssessmentStructure

  const DatabaseName: string := "TalentFlowDB"
  const SchemaVersion: nat := 1

  datatype IndexSpec = IndexSpec(field: string, unique: bool)
  datatype TableSpec = TableSpec(name: string, autoIncrementKey: bool, indexes: seq<IndexSpec>)

  /** The declared schema: every table has an auto-incremented `id`. */
  const Schema: seq<TableSpec> := [
    TableSpec("jobs", true, [IndexSpec("title", false), IndexSpec("slug", false),
                             IndexSpec("status", false), IndexSpec("order", false)]),
    TableSpec("candidates", true, [IndexSpec("name", false), IndexSpec("email", false),
                                   IndexSpec("stage", false)]),
    TableSpec("assessments", true, [IndexSpec("jobId", true), IndexSpec("title", false),
                                    IndexSpec("structure", false)]),
    TableSpec("responses", true, [IndexSpec("assessmentId", false), IndexSpec("candidateId", false),
                                  IndexSpec("answers", false)])
  ]

  /** `DataError` is IndexedDB's answer to a query on a value that is not a
      valid key, such as NaN. */
  datatype StoreError = ConstraintError | DataError | StoreUnavailable

  datatype Result<T> = Ok(value: T) | Err(error: StoreError)

  /** An assessment row. `jobId` is `Number(...)` of a route parameter:
      `None` stands for NaN, which IndexedDB does not put in an index, so the
      unique constraint binds only `Some` keys. */
  datatype AssessmentRecord = AssessmentRecord(id: Id, jobId: Option<int>, title: string, structure: Structure)

  datatype ResponseRecord = ResponseRecord(id: Id, assessmentId: Id, candidateId: Id, answers: map<string, Value>)

  // Records as handed to `add`/`bulkAdd`/`put`: everything but the key.
  datatype NewJob = NewJob(title: string, slug: string, status: string, order: int, tags: seq<string>, createdAt: Option<int>)
  datatype NewCandidate = NewCandidate(name: string, email: string, stage: string, jobId: Option<Id>,
                                       timeline: seq<TimelineEntry>, notes: seq<string>)
  datatype NewAssessment = NewAssessment(jobId: Option<int>, title: string, structure: Structure)

  function JobNamed(k: nat, n: NewJob): Job {
    Job(k, n.title, n.slug, n.status, n.order, n.tags, n.createdAt)
  }

  function CandidateNamed(k: nat, n: NewCandidate): Candidate {
    Candidate(k, n.name, n.email, n.stage, n.jobId, n.timeline, n.notes)
  }

  function AssessmentNamed(k: nat, n: NewAssessment): AssessmentRecord {
    AssessmentRecord(k, n.jobId, n.title, n.structure)
  }

  /** The changes `update(key, changes)` is called with for jobs. */
  datatype JobChange = SetStatus(status: string) | SetOrder(order: int)

  function ApplyChange(j: Job, c: JobChange): Job {
    match c
    case SetStatus(s) => j.(status := s)
    case SetOrder(o) => j.(order := o)
  }

  /** The unique index on `assessments.jobId`. */
  ghost predicate UniqueJobIds(m: map<Id, AssessmentRecord>) {
    forall a, b :: a in m && b in m && m[a].jobId.Some? && m[a].jobId == m[b].jobId ==> a == b
  }

  datatype Tables = Tables(
    jobs: map<Id, Job>,
    candidates: map<Id, Candidate>,
    assessments: map<Id, AssessmentRecord>,
    responses: map<Id, ResponseRecord>,
    nextJobId: Id,
    nextCandidateId: Id,
    nextAssessmentId: Id,
    nextResponseId: Id)
  {
    /** Keys are below their table's counter, every record carries its own
        key, and no two assessments share a (defined) `jobId`. */
    ghost predicate Valid() {
      1 <= nextJobId && 1 <= nextCandidateId && 1 <= nextAssessmentId && 1 <= nextResponseId &&
      (forall k :: k in jobs ==> 1 <= k < nextJobId && jobs[k].id == k) &&
      (forall k :: k in candidates ==> 1 <= k < nextCandidateId && candidates[k].id == k) &&
      (forall k :: k in assessments ==> 1 <= k < nextAssessmentId && assessments[k].id == k) &&
      (forall k :: k in responses ==> 1 <= k < nextResponseId && responses[k].id == k) &&
      UniqueJobIds(assessments)
    }

    /** `toArray()`: all rows in primary-key order. */
    function JobRows(): seq<Job> { Rows(jobs, 1, nextJobId) }
    function CandidateRows(): seq<Candidate> { Rows(candidates, 1, nextCandidateId) }
    function AssessmentRows(): seq<AssessmentRecord> { Rows(assessments, 1, nextAssessmentId) }

    /** `db.jobs.get(key)`. */
    function GetJob(key: int): Option<Job> {
      if 0 <= key && key as nat in jobs then Some(jobs[key as nat]) else None
    }

    /** `db.jobs.add(n)`: stored under the next key. No index on jobs is
        unique, so nothing about `n` can make it fail. */
    function WithJob(n: NewJob): Tables {
      this.(jobs := jobs[nextJobId := JobNamed(nextJobId, n)], nextJobId := nextJobId + 1)
    }

    /** `db.jobs.update(key, change)`: a missing key changes nothing. */
    function WithJobChange(key: Id, c: JobChange): Tables {
      if key in jobs then this.(jobs := jobs[key := ApplyChange(jobs[key], c)]) else this
    }

    /** `update` resolves to the number of rows it changed. */
    function ChangeCount(key: Id): nat {
      if key in jobs then 1 else 0
    }

    predicate JobIdTaken(key: Option<int>) {
      key.Some? && exists k :: k in assessments && assessments[k].jobId == key
    }

    /** `db.assessments.put(n)` for a record without a primary key: a new row,
        or a `ConstraintError` when another row already has its `jobId`. */
    function WithAssessment(n: NewAssessment): Result<Tables> {
      if JobIdTaken(n.jobId) then Err(ConstraintError)
      else Ok(this.(assessments := assessments[nextAssessmentId := AssessmentNamed(nextAssessmentId, n)],
                    nextAssessmentId := nextAssessmentId + 1))
    }

    /** `db.assessments.get({jobId: key})`: an equality query on the
        `jobId` index. NaN is not a valid key, so for it the query is refused
        with a `DataError` rather than answered. */
    function AssessmentForJob(key: Option<int>): Result<Option<AssessmentRecord>> {
      if key.None? then Err(DataError) else Ok(FirstWithJobId(AssessmentRows(), key))
    }

    function WithJobs(ns: seq<NewJob>): Tables {
      this.(jobs := Appended(jobs, nextJobId, ns, JobNamed), nextJobId := nextJobId + |ns|)
    }

    function WithCandidates(ns: seq<NewCandidate>): Tables {
      this.(candidates := Appended(candidates, nextCandidateId, ns, CandidateNamed),
            nextCandidateId := nextCandidateId + |ns|)
    }

    predicate BatchConflict(ns: seq<NewAssessment>) {
      (exists i :: 0 <= i < |ns| && JobIdTaken(ns[i].jobId)) ||
      (exists i, j :: 0 <= i < j < |ns| && ns[i].jobId.Some? && ns[i].jobId == ns[j].jobId)
    }

    /** `db.assessments.bulkAdd(ns)` inside a transaction: all rows, or a
        `ConstraintError` and none. */
    function WithAssessments(ns: seq<NewAssessment>): Result<Tables> {
      if BatchConflict(ns) then Err(ConstraintError)
      else Ok(this.(assessments := Appended(assessments, nextAssessmentId, ns, AssessmentNamed),
                    nextAssessmentId := nextAssessmentId + |ns|))
    }
  }

  const EmptyTables: Tables := Tables(map[], map[], map[], map[], 1, 1, 1, 1)

  function FirstWithJobId(rows: seq<AssessmentRecord>, key: Option<int>): (r: Option<AssessmentRecord>)
    ensures r.Some? ==> r.value in rows && r.value.jobId == key
    ensures r.None? ==> forall i :: 0 <= i < |rows| ==> rows[i].jobId != key
  {
    if rows == [] then None
    else if rows[0].jobId == key then Some(rows[0])
    else FirstWithJobId(rows[1..], key)
  }

  // -----------------------------------------------------------------------
  // Properties of the tables

  lemma EmptyTablesValid()
    ensures EmptyTables.Valid()
    ensures EmptyTables.JobRows() == [] && EmptyTables.CandidateRows() == []
  {
  }

  /** Adding a job keeps every other row, stores the new one under a fresh
      key, and accepts any title and slug, duplicates included. */
  lemma WithJobProperties(t: Tables, n: NewJob)
    requires t.Valid()
    ensures t.WithJob(n).Valid()
    ensures t.nextJobId !in t.jobs
    ensures t.WithJob(n).jobs[t.nextJobId] == JobNamed(t.nextJobId, n)
    ensures forall k :: k in t.jobs ==> k in t.WithJob(n).jobs && t.WithJob(n).jobs[k] == t.jobs[k]
    ensures t.WithJob(n).jobs.Keys == t.jobs.Keys + {t.nextJobId}
  {
  }

  lemma WithJobChangeProperties(t: Tables, key: Id, c: JobChange)
    requires t.Valid()
    ensures t.WithJobChange(key, c).Valid()
    ensures key in t.jobs ==> t.WithJobChange(key, c).jobs[key] == ApplyChange(t.jobs[key], c)
    ensures forall k :: k in t.jobs && k != key ==> t.WithJobChange(key, c).jobs[k] == t.jobs[k]
    ensures t.WithJobChange(key, c).jobs.Keys == t.jobs.Keys
    ensures t.WithJobChange(key, c).(jobs := t.jobs) == t
  {
  }

  /** A put fails exactly when the unique index already holds its `jobId`;
      on success the index stays unique and the row is findable by job. */
  lemma WithAssessmentProperties(t: Tables, n: NewAssessment)
    requires t.Valid()
    ensures t.WithAssessment(n).Err? <==> n.jobId.Some? && exists k :: k in t.assessments && t.assessments[k].jobId == n.jobId
    ensures t.WithAssessment(n).Err? ==> t.WithAssessment(n).error == ConstraintError
    ensures t.WithAssessment(n).Ok? ==> t.WithAssessment(n).value.Valid()
    ensures t.WithAssessment(n).Ok? ==>
      t.WithAssessment(n).value.assessments[t.nextAssessmentId] == AssessmentNamed(t.nextAssessmentId, n)
  {
    if t.WithAssessment(n).Ok? {
      var t' := t.WithAssessment(n).value;
      forall a, b | a in t'.assessments && b in t'.assessments && t'.assessments[a].jobId.Some?
                    && t'.assessments[a].jobId == t'.assessments[b].jobId
        ensures a == b
      {
      }
    }
  }

  /** Saving twice for the same job: the second `put` is a constraint failure. */
  lemma SecondPutForSameJobFails(t: Tables, n: NewAssessment, m: NewAssessment)
    requires t.Valid() && n.jobId.Some? && m.jobId == n.jobId
    requires t.WithAssessment(n).Ok?
    ensures t.WithAssessment(n).value.WithAssessment(m) == Err(ConstraintError)
  {
    var t' := t.WithAssessment(n).value;
    assert t'.assessments[t.nextAssessmentId].jobId == m.jobId;
  }

  /** A NaN `jobId` is never indexed, so such puts always add a row. */
  lemma UnindexedPutNeverConflicts(t: Tables, n: NewAssessment)
    requires n.jobId.None?
    ensures t.WithAssessment(n).Ok?
    ensures t.WithAssessment(n).value.nextAssessmentId == t.nextAssessmentId + 1
  {
  }

  /** The job lookup of the builder is refused for a NaN key; for any other
      key it finds the one row holding that `jobId`, and finds nothing
      exactly when no row holds it. */
  lemma {:induction false} AssessmentForJobFinds(t: Tables, key: Option<int>)
    requires t.Valid()
    ensures t.AssessmentForJob(key).Err? <==> key.None?
    ensures t.AssessmentForJob(key).Err? ==> t.AssessmentForJob(key).error == DataError
    ensures t.AssessmentForJob(key).Ok? && t.AssessmentForJob(key).value.Some? ==>
      t.AssessmentForJob(key).value.value.jobId == key &&
      t.AssessmentForJob(key).value.value.id in t.assessments &&
      t.assessments[t.AssessmentForJob(key).value.value.id] == t.AssessmentForJob(key).value.value
    ensures key.Some? ==> (t.AssessmentForJob(key).value.None? <==> !t.JobIdTaken(key))
  {
    if key.None? {
      return;
    }
    var r := FirstWithJobId(t.AssessmentRows(), key);
    if r.Some? {
      RowsSource(t.assessments, 1, t.nextAssessmentId, r.value);
    } else if key.Some? && t.JobIdTaken(key) {
      var k :| k in t.assessments && t.assessments[k].jobId == key;
      RowsMember(t.assessments, 1, t.nextAssessmentId, k);
    }
  }

  lemma WithJobsProperties(t: Tables, ns: seq<NewJob>)
    requires t.Valid()
    ensures t.WithJobs(ns).Valid()
    ensures forall k :: k in t.WithJobs(ns).jobs <==> k in t.jobs || t.nextJobId <= k < t.nextJobId + |ns|
    ensures forall i :: 0 <= i < |ns| ==>
      t.WithJobs(ns).jobs[t.nextJobId + i] == JobNamed(t.nextJobId + i, ns[i])
    ensures forall k :: k in t.jobs ==> k in t.WithJobs(ns).jobs && t.WithJobs(ns).jobs[k] == t.jobs[k]
  {
    var t' := t.WithJobs(ns);
    AppendedAt(t.jobs, t.nextJobId, ns, JobNamed);
    forall k | k in t'.jobs
      ensures 1 <= k < t'.nextJobId && t'.jobs[k].id == k
    {
      if k !in t.jobs {
        var i := k - t.nextJobId;
        assert t'.jobs[t.nextJobId + i] == JobNamed(t.nextJobId + i, ns[i]);
      }
    }
  }

  lemma WithCandidatesProperties(t: Tables, ns: seq<NewCandidate>)
    requires t.Valid()
    ensures t.WithCandidates(ns).Valid()
    ensures forall k :: k in t.WithCandidates(ns).candidates <==> k in t.candidates || t.nextCandidateId <= k < t.nextCandidateId + |ns|
    ensures forall i :: 0 <= i < |ns| ==>
      t.WithCandidates(ns).candidates[t.nextCandidateId + i] == CandidateNamed(t.nextCandidateId + i, ns[i])
    ensures forall k :: k in t.candidates ==>
      k in t.WithCandidates(ns).candidates && t.WithCandidates(ns).candidates[k] == t.candidates[k]
  {
    var t' := t.WithCandidates(ns);
    AppendedAt(t.candidates, t.nextCandidateId, ns, CandidateNamed);
    forall k | k in t'.candidates
      ensures 1 <= k < t'.nextCandidateId && t'.candidates[k].id == k
    {
      if k !in t.candidates {
        var i := k - t.nextCandidateId;
        assert t'.candidates[t.nextCandidateId + i] == CandidateNamed(t.nextCandidateId + i, ns[i]);
      }
    }
  }

  lemma WithAssessmentsProperties(t: Tables, ns: seq<NewAssessment>)
    requires t.Valid()
    ensures t.WithAssessments(ns).Ok? <==> !t.BatchConflict(ns)
    ensures t.WithAssessments(ns).Ok? ==> t.WithAssessments(ns).value.Valid()
  {
    if !t.BatchConflict(ns) {
      var t' := t.WithAssessments(ns).value;
      var next := t.nextAssessmentId;
      AppendedAt(t.assessments, next, ns, AssessmentNamed);
      forall k | k in t'.assessments && k !in t.assessments
        ensures next <= k < t'.nextAssessmentId && t'.assessments[k] == AssessmentNamed(k, ns[k - next])
      {
        var i := k - next;
        assert t'.assessments[next + i] == AssessmentNamed(next + i, ns[i]);
      }
      forall a, b | a in t'.assessments && b in t'.assessments && t'.assessments[a].jobId.Some?
                    && t'.assessments[a].jobId == t'.assessments[b].jobId
        ensures a == b
      {
      }
    }
  }

  /** `jobCount > 0` exactly when the jobs table holds a row. */
  lemma JobRowsEmptyIffNoJobs(t: Tables)
    requires t.Valid()
    ensures t.JobRows() == [] <==> t.jobs == map[]
  {
    if t.jobs != map[] {
      var k :| k in t.jobs;
      RowsMember(t.jobs, 1, t.nextJobId, k);
    } else {
      RowsOfNoKeys(t.jobs, 1, t.nextJobId);
    }
  }

  // -----------------------------------------------------------------------
  // The database object

  class Database {
    var tables: Tables

    ghost predicate Valid() reads this {
      tables.Valid()
    }

    constructor ()
      ensures Valid() && tables == EmptyTables
    {
      tables := EmptyTables;
    }

    method AddJob(n: NewJob, ok: bool) returns (r: Result<Id>)
      requires Valid()
      modifies this
      ensures Valid()
      ensures ok ==> r == Ok(old(tables).nextJobId) && tables == old(tables).WithJob(n)
      ensures !ok ==> r == Err(StoreUnavailable) && tables == old(tables)
    {
      if !ok {
        return Err(StoreUnavailable);
      }
      WithJobProperties(tables, n);
      r := Ok(tables.nextJobId);
      tables := tables.WithJob(n);
    }

    method UpdateJob(key: Id, c: JobChange, ok: bool) returns (r: Result<nat>)
      requires Valid()
      modifies this
      ensures Valid()
      ensures ok ==> r == Ok(old(tables).ChangeCount(key)) && tables == old(tables).WithJobChange(key, c)
      ensures !ok ==> r == Err(StoreUnavailable) && tables == old(tables)
    {
      if !ok {
        return Err(StoreUnavailable);
      }
      WithJobChangeProperties(tables, key, c);
      r := Ok(tables.ChangeCount(key));
      tables := tables.WithJobChange(key, c);
    }

    method PutAssessment(n: NewAssessment, ok: bool) returns (r: Result<Id>)
      requires Valid()
      modifies this
      ensures Valid()
      ensures ok && old(tables).WithAssessment(n).Ok? ==>
        r == Ok(old(tables).nextAssessmentId) && tables == old(tables).WithAssessment(n).value
      ensures ok && old(tables).WithAssessment(n).Err? ==> r == Err(ConstraintError) && tables == old(tables)
      ensures !ok ==> r == Err(StoreUnavailable) && tables == old(tables)
    {
      if !ok {
        return Err(StoreUnavailable);
      }
      WithAssessmentProperties(tables, n);
      var t := tables.WithAssessment(n);
      if t.Err? {
        return Err(ConstraintError);
      }
      r := Ok(tables.nextAssessmentId);
      tables := t.value;
    }

    method BulkAddJobs(ns: seq<NewJob>, ok: bool) returns (r: Result<()>)
      requires Valid()
      modifies this
      ensures Valid()
      ensures ok ==> r == Ok(()) && tables == old(tables).WithJobs(ns)
      ensures !ok ==> r == Err(StoreUnavailable) && tables == old(tables)
    {
      if !ok {
        return Err(StoreUnavailable);
      }
      WithJobsProperties(tables, ns);
      tables := tables.WithJobs(ns);
      r := Ok(());
    }

    method BulkAddCandidates(ns: seq<NewCandidate>, ok: bool) returns (r: Result<()>)
      requires Valid()
      modifies this
      ensures Valid()
      ensures ok ==> r == Ok(()) && tables == old(tables).WithCandidates(ns)
      ensures !ok ==> r == Err(StoreUnavailable) && tables == old(tables)
    {
      if !ok {
        return Err(StoreUnavailable);
      }
      WithCandidatesProperties(tables, ns);
      tables := tables.WithCandidates(ns);
      r := Ok(());
    }

    method BulkAddAssessments(ns: seq<NewAssessment>, ok: bool) returns (r: Result<()>)
      requires Valid()
      modifies this
      ensures Valid()
      ensures ok && old(tables).WithAssessments(ns).Ok? ==>
        r == Ok(()) && tables == old(tables).WithAssessments(ns).value
      ensures ok && old(tables).WithAssessments(ns).Err? ==> r == Err(ConstraintError) && tables == old(tables)
      ensures !ok ==> r == Err(StoreUnavailable) && tables == old(tables)
    {
      if !ok {
        return Err(StoreUnavailable);
      }
      WithAssessmentsProperties(tables, ns);
      var t := tables.WithAssessments(ns);
      if t.Err? {
        return Err(ConstraintError);
      }
      tables := t.value;
      r := Ok(());
    }

    /** A transaction that does not commit puts every table back as it was
        when the transaction began. */
    method Abort(snapshot: Tables)
      requires snapshot.Valid()
      modifies this
      ensures Valid() && tables == snapshot
    {
      tables := snapshot;
    }
  }
}
