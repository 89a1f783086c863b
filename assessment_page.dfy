/** The assessments list page: each stored assessment labelled with the
    title of its job, and the routes its Create and Edit buttons open. */
module AssessmentPage {
  import opened Common
  import opened Records
  import opened DexieDB

  const Unassigned: string := "Unassigned"
  const NotLinkedAlert: string := "This assessment is not linked to a job."

  /** An assessment with the title of the job it is linked to. */
  datatype Enriched = Enriched(record: AssessmentRecord, jobTitle: string)

  /** `assessment.jobId` is truthy: defined, not NaN and not 0. */
  predicate Linked(jobId: Option<int>) {
    jobId.Some? && jobId.value != 0
  }

  /** `job ? job.title : 'Unassigned'`, looking the job up only for a linked
      assessment. */
  function JobTitleFor(t: Tables, a: AssessmentRecord): (title: string)
    ensures Linked(a.jobId) && t.GetJob(a.jobId.value).Some? ==> title == t.GetJob(a.jobId.value).value.title
    ensures !Linked(a.jobId) || t.GetJob(a.jobId.value).None? ==> title == Unassigned
  {
    if Linked(a.jobId) && t.GetJob(a.jobId.value).Some? then t.GetJob(a.jobId.value).value.title else Unassigned
  }

  function Enrich(t: Tables, rows: seq<AssessmentRecord>): seq<Enriched> {
    if rows == [] then [] else [Enriched(rows[0], JobTitleFor(t, rows[0]))] + Enrich(t, rows[1..])
  }

  /** The list the page shows: every stored assessment, in key order. */
  function AssessmentList(t: Tables): seq<Enriched> {
    Enrich(t, t.AssessmentRows())
  }

  /** Enriching keeps every assessment, in order, and only adds its job's
      title. */
  lemma {:induction false} EnrichKeepsEveryAssessment(t: Tables, rows: seq<AssessmentRecord>)
    ensures |Enrich(t, rows)| == |rows|
    ensures forall i :: 0 <= i < |rows| ==>
      Enrich(t, rows)[i].record == rows[i] && Enrich(t, rows)[i].jobTitle == JobTitleFor(t, rows[i])
  {
    if rows != [] {
      EnrichKeepsEveryAssessment(t, rows[1..]);
      assert forall i :: 1 <= i < |rows| ==> rows[i] == rows[1..][i - 1];
    }
  }

  /** A `put` that succeeds shows up at the end of the list, labelled with
      the title of the job its key names, or "Unassigned" when the key is
      NaN or 0 or names no stored job; the rows listed before are unchanged. */
  lemma SavedAssessmentIsListed(t: Tables, n: NewAssessment)
    requires t.Valid() && t.WithAssessment(n).Ok?
    ensures var before := AssessmentList(t);
      var after := AssessmentList(t.WithAssessment(n).value);
      |after| == |before| + 1 &&
      (forall i :: 0 <= i < |before| ==> after[i] == before[i]) &&
      after[|before|].record == AssessmentNamed(t.nextAssessmentId, n) &&
      (Linked(n.jobId) && 0 <= n.jobId.value && n.jobId.value as nat in t.jobs ==>
        after[|before|].jobTitle == t.jobs[n.jobId.value as nat].title) &&
      (!Linked(n.jobId) || n.jobId.value < 0 || n.jobId.value as nat !in t.jobs ==>
        after[|before|].jobTitle == Unassigned)
  {
    var t2 := t.WithAssessment(n).value;
    var rec := AssessmentNamed(t.nextAssessmentId, n);
    var rows := t.AssessmentRows();
    PutAppendsOneRow(t, n);
    EnrichKeepsEveryAssessment(t, rows);
    EnrichKeepsEveryAssessment(t2, rows + [rec]);
    forall i | 0 <= i < |rows|
      ensures AssessmentList(t2)[i] == AssessmentList(t)[i]
    {
      assert (rows + [rec])[i] == rows[i];
      assert JobTitleFor(t2, rows[i]) == JobTitleFor(t, rows[i]);
    }
    assert (rows + [rec])[|rows|] == rec;
  }

  /** The table scan after a successful `put` is the one before with the new
      row at its end, and the jobs table is untouched. */
  lemma PutAppendsOneRow(t: Tables, n: NewAssessment)
    requires t.Valid() && t.WithAssessment(n).Ok?
    ensures t.WithAssessment(n).value.AssessmentRows() == t.AssessmentRows() + [AssessmentNamed(t.nextAssessmentId, n)]
    ensures t.WithAssessment(n).value.jobs == t.jobs
  {
    var t2 := t.WithAssessment(n).value;
    var next := t.nextAssessmentId;
    var rec := AssessmentNamed(next, n);
    RowsIgnoresOutside(t.assessments, next, rec, 1, next);
    RowsSplit(t2.assessments, 1, next, next + 1);
    assert Rows(t2.assessments, next, next + 1) == [rec];
  }

  /** Where a button sends the user. */
  datatype Outcome = Navigate(path: string) | Alert(message: string)

  function BuilderPath(param: string): string {
    "/jobs/" + param + "/assessment"
  }

  /** `handleCreate`: the chosen job's builder, or a fresh unassigned
      builder named after the clock when no job was chosen. */
  function HandleCreate(selectedJobId: string, now: int): (r: Outcome)
    ensures r.Navigate?
    ensures selectedJobId != "" ==> r.path == BuilderPath(selectedJobId)
    ensures selectedJobId == "" ==> r.path == BuilderPath("unassigned-" + IntToString(now))
  {
    if selectedJobId != "" then Navigate(BuilderPath(selectedJobId))
    else Navigate(BuilderPath("unassigned-" + IntToString(now)))
  }

  /** `handleEdit`: a linked assessment opens its job's builder; any other
      raises the alert. */
  function HandleEdit(jobId: Option<int>): (r: Outcome)
    ensures r.Navigate? <==> Linked(jobId)
    ensures r.Navigate? ==> r.path == BuilderPath(IntToString(jobId.value))
    ensures r.Alert? ==> r.message == NotLinkedAlert
  {
    if Linked(jobId) then Navigate(BuilderPath(IntToString(jobId.value))) else Alert(NotLinkedAlert)
  }

  /** The builder's `Number(jobId)` on the route parameter. */
  function RouteJobKey(param: string): Option<int> {
    var n := ParseDecimal(param);
    if n.Some? then Some(n.value as int) else None
  }

  /** An unassigned builder's parameter is NaN as a number, so its saves are
      never indexed by job and never conflict. */
  lemma UnassignedBuilderNeverConflicts(t: Tables, now: int, s: NewAssessment)
    requires s.jobId == RouteJobKey("unassigned-" + IntToString(now))
    ensures s.jobId.None?
    ensures t.WithAssessment(s).Ok?
  {
    var p := "unassigned-" + IntToString(now);
    assert !IsDigitChar(p[0]);
    UnindexedPutNeverConflicts(t, s);
  }

  /** Choosing a job in the create dialog opens a builder whose key is that
      job's id. */
  lemma CreateForJobOpensItsBuilder(jobId: nat, now: int)
    ensures HandleCreate(NatToString(jobId), now) == Navigate(BuilderPath(NatToString(jobId)))
    ensures RouteJobKey(NatToString(jobId)) == Some(jobId as int)
  {
    NatToStringDigits(jobId);
    ParseNatToString(jobId);
  }

  /** Editing a linked assessment with a positive job id opens the builder
      for that same key, which loads that very assessment. */
  lemma EditOpensTheSameAssessment(t: Tables, a: AssessmentRecord)
    requires t.Valid() && a in t.assessments.Values
    requires a.jobId.Some? && a.jobId.value > 0
    ensures HandleEdit(a.jobId) == Navigate(BuilderPath(NatToString(a.jobId.value)))
    ensures RouteJobKey(NatToString(a.jobId.value)) == a.jobId
    ensures t.AssessmentForJob(a.jobId) == Ok(Some(a))
  {
    ParseNatToString(a.jobId.value);
    var k :| k in t.assessments && t.assessments[k] == a;
    assert t.JobIdTaken(a.jobId);
    AssessmentForJobFinds(t, a.jobId);
    var found := t.AssessmentForJob(a.jobId).value.value;
    assert t.assessments[found.id].jobId == t.assessments[k].jobId;
  }
}
