/** The first-run seed of the browser store: when the jobs table is empty,
    one transaction adds 25 jobs, 1000 candidates linked to them and 3
    assessments for the first three jobs; any failure inside it rolls every
    table back. Every faker, `nanoid`, `Date.now()` and `Math.random()`
    result is a parameter (a "draw"). */
module SeedDB {
  import opened Common
  import opened Records
  import opened AssessmentStructure
  import opened DexieDB

  const JobCount: nat := 25
  const CandidateCount: nat := 1000
  const AssessmentCount: nat := 3
  const SectionsPerAssessment: nat := 2
  const QuestionsPerSection: nat := 6

  /** The seed's stages, which unlike the board's include "Rejected". */
  const SeedStages: seq<string> := ["Applied", "Screening", "Interview", "Offer", "Hired", "Rejected"]
  const JobStatuses: seq<string> := ["active", "archived"]
  const SeedTags: seq<string> := ["Remote", "Full-time", "Engineering", "Marketing", "Senior"]
  const SeedQuestionTypes: seq<QuestionType> := [ShortText, LongText, SingleChoice, MultiChoice, Numeric]
  const ChoiceOptions: seq<string> := ["Beginner", "Intermediate", "Advanced", "Expert"]
  const SampleQuestions: seq<string> := [
    "How would you rate your experience with React?",
    "Describe a challenging project you've worked on.",
    "What is your preferred method for state management?",
    "How do you handle tight deadlines and pressure?",
    "Walk me through your process for debugging a complex issue.",
    "What are your long-term career goals?",
    "How do you stay up-to-date with new technologies?"]
  const NumericText: string := "On a scale of 1 to 5, how would you rate your communication skills?"
  const ShortTextText: string := "What is your greatest strength?"

  /** `getRandom(arr)`: `arr[Math.floor(r * arr.length)]` for a draw
      `0 <= r < 1`. */
  function Pick<T>(arr: seq<T>, r: real): (x: T)
    requires |arr| > 0 && 0.0 <= r < 1.0
    ensures x in arr
  {
    var n := |arr| as real;
    var i := (r * n).Floor;
    assert 0 <= i < |arr| by {
      assert 0.0 <= r * n < n;
      assert (i as real) <= r * n < (i as real) + 1.0;
    }
    arr[i]
  }

  // ---------------------------------------------------------------------
  // Jobs

  /** The draws for one job: faker's title, faker's slug of it, the status
      draw, the clock when `order` is computed, faker's past date and
      faker's 1 to 3 distinct tags. */
  datatype JobDraw = JobDraw(title: string, fakerSlug: string, statusRandom: real, now: int, createdAt: int, tags: seq<string>)

  predicate ValidJobDraw(d: JobDraw) {
    0.0 <= d.statusRandom < 1.0 && 1 <= |d.tags| <= 3 &&
    (forall k :: 0 <= k < |d.tags| ==> d.tags[k] in SeedTags) &&
    (forall k, l :: 0 <= k < l < |d.tags| ==> d.tags[k] != d.tags[l])
  }

  function SeedJob(i: nat, d: JobDraw): NewJob
    requires ValidJobDraw(d)
  {
    NewJob(d.title, Lower(d.fakerSlug), Pick(JobStatuses, d.statusRandom), d.now - i * 1000, d.tags, Some(d.createdAt))
  }

  function SeedJobList(jd: seq<JobDraw>): seq<NewJob>
    requires forall i :: 0 <= i < |jd| ==> ValidJobDraw(jd[i])
  {
    seq(|jd|, i requires 0 <= i < |jd| => SeedJob(i, jd[i]))
  }

  /** A seeded job is active or archived, has a lower-case slug, one to
      three distinct tags from the seed's list, a creation date, and is
      ranked one second per position below the clock. */
  lemma SeedJobShape(i: nat, d: JobDraw)
    requires ValidJobDraw(d)
    ensures SeedJob(i, d).status in JobStatuses
    ensures forall k :: 0 <= k < |SeedJob(i, d).slug| ==> !('A' <= SeedJob(i, d).slug[k] <= 'Z')
    ensures 1 <= |SeedJob(i, d).tags| <= 3 && forall k :: 0 <= k < |SeedJob(i, d).tags| ==> SeedJob(i, d).tags[k] in SeedTags
    ensures SeedJob(i, d).order == d.now - 1000 * i && SeedJob(i, d).createdAt == Some(d.createdAt)
  {
  }

  /** While the clock readings stay within one second of each other, a
      later job gets a strictly smaller rank, so the jobs list shows the
      seed in reverse order of creation. */
  lemma SeedOrdersDescend(jd: seq<JobDraw>)
    requires forall i :: 0 <= i < |jd| ==> ValidJobDraw(jd[i])
    requires forall i, j :: 0 <= i < |jd| && 0 <= j < |jd| ==> jd[j].now - jd[i].now < 1000
    ensures forall i, j :: 0 <= i < j < |jd| ==> SeedJobList(jd)[j].order < SeedJobList(jd)[i].order
  {
    forall i, j | 0 <= i < j < |jd|
      ensures SeedJobList(jd)[j].order < SeedJobList(jd)[i].order
    {
      assert SeedJobList(jd)[j].order == jd[j].now - j * 1000;
      assert SeedJobList(jd)[i].order == jd[i].now - i * 1000;
      assert j * 1000 - i * 1000 >= 1000;
    }
  }

  method BuildJobs(jd: seq<JobDraw>) returns (jobs: seq<NewJob>)
    requires |jd| == JobCount && forall i :: 0 <= i < |jd| ==> ValidJobDraw(jd[i])
    ensures jobs == SeedJobList(jd)
  {
    jobs := [];
    var i := 0;
    while i < JobCount
      invariant 0 <= i <= JobCount
      invariant |jobs| == i && forall k :: 0 <= k < i ==> jobs[k] == SeedJob(k, jd[k])
    {
      jobs := jobs + [SeedJob(i, jd[i])];
      i := i + 1;
    }
  }

  /** Read back after the bulk add into an empty table, the jobs are the
      seeded ones, in the order given, under consecutive keys. */
  lemma SeededJobsReadBack(t: Tables, jd: seq<JobDraw>)
    requires t.Valid() && t.jobs == map[]
    requires forall i :: 0 <= i < |jd| ==> ValidJobDraw(jd[i])
    ensures t.WithJobs(SeedJobList(jd)).JobRows() ==
      seq(|jd|, i requires 0 <= i < |jd| => JobNamed(t.nextJobId + i, SeedJob(i, jd[i])))
  {
    var ns := SeedJobList(jd);
    RowsOfAppended(t.nextJobId, ns, JobNamed);
  }

  // ---------------------------------------------------------------------
  // Candidates

  /** The draws for one candidate: the stage draw, faker's names and
      e-mail, the job draw and faker's past date. */
  datatype CandidateDraw = CandidateDraw(stageRandom: real, firstName: string, lastName: string, email: string,
                                         jobRandom: real, pastDate: int)

  predicate ValidCandidateDraw(d: CandidateDraw) {
    0.0 <= d.stageRandom < 1.0 && 0.0 <= d.jobRandom < 1.0
  }

  /** `getRandom(jobIds)` is `undefined` when there are no jobs. */
  function SeedCandidate(jobIds: seq<Id>, d: CandidateDraw): NewCandidate
    requires ValidCandidateDraw(d)
  {
    var stage := Pick(SeedStages, d.stageRandom);
    NewCandidate(d.firstName + " " + d.lastName, d.email, stage,
                 if |jobIds| == 0 then None else Some(Pick(jobIds, d.jobRandom)),
                 [TimelineEntry(stage, d.pastDate)], [])
  }

  function IdsOf(jobs: seq<Job>): seq<Id> {
    seq(|jobs|, i requires 0 <= i < |jobs| => jobs[i].id)
  }

  function SeedCandidateList(created: seq<Job>, cd: seq<CandidateDraw>): seq<NewCandidate>
    requires forall i :: 0 <= i < |cd| ==> ValidCandidateDraw(cd[i])
  {
    seq(|cd|, i requires 0 <= i < |cd| => SeedCandidate(IdsOf(created), cd[i]))
  }

  /** A seeded candidate has a seed stage, a one-entry timeline for that
      stage, no notes, and (when jobs exist) the id of one of them. */
  lemma SeedCandidateShape(created: seq<Job>, d: CandidateDraw)
    requires ValidCandidateDraw(d)
    ensures var c := SeedCandidate(IdsOf(created), d);
      c.stage in SeedStages && c.timeline == [TimelineEntry(c.stage, d.pastDate)] && c.notes == [] &&
      c.name == d.firstName + " " + d.lastName &&
      (|created| == 0 <==> c.jobId.None?) &&
      (c.jobId.Some? ==> exists j :: j in created && j.id == c.jobId.value)
  {
    var c := SeedCandidate(IdsOf(created), d);
    if c.jobId.Some? {
      var ids := IdsOf(created);
      var k :| 0 <= k < |ids| && ids[k] == c.jobId.value;
      assert created[k] in created && created[k].id == c.jobId.value;
    }
  }

  method BuildCandidates(created: seq<Job>, cd: seq<CandidateDraw>) returns (cands: seq<NewCandidate>)
    requires |cd| == CandidateCount && forall i :: 0 <= i < |cd| ==> ValidCandidateDraw(cd[i])
    ensures cands == SeedCandidateList(created, cd)
  {
    var jobIds := IdsOf(created);
    cands := [];
    var i := 0;
    while i < CandidateCount
      invariant 0 <= i <= CandidateCount
      invariant |cands| == i && forall k :: 0 <= k < i ==> cands[k] == SeedCandidate(jobIds, cd[k])
    {
      cands := cands + [SeedCandidate(jobIds, cd[i])];
      i := i + 1;
    }
  }

  // ---------------------------------------------------------------------
  // Assessments

  /** The draws for one question: its type draw, `nanoid()`, the text draw
      and faker's boolean. */
  datatype QuestionDraw = QuestionDraw(typeRandom: real, id: string, textRandom: real, required: bool)

  predicate ValidQuestionDraw(d: QuestionDraw) {
    0.0 <= d.typeRandom < 1.0 && 0.0 <= d.textRandom < 1.0
  }

  /** `generateQuestion(type)`. */
  function GenerateQuestion(kind: QuestionType, d: QuestionDraw): Question
    requires ValidQuestionDraw(d)
  {
    var base := Question(d.id, Pick(SampleQuestions, d.textRandom), kind, [],
                         map["required" := Bool(d.required)],
                         Some(map["dependsOn" := Null, "showIfValue" := Str("")]));
    var withOptions := if kind == SingleChoice || kind == MultiChoice then base.(options := ChoiceOptions) else base;
    var withRange := if kind == Numeric
      then withOptions.(validation := withOptions.validation["min" := Int(1)]["max" := Int(5)], text := NumericText)
      else withOptions;
    if kind == ShortText then withRange.(text := ShortTextText) else withRange
  }

  function SeedQuestion(d: QuestionDraw): Question
    requires ValidQuestionDraw(d)
  {
    GenerateQuestion(Pick(SeedQuestionTypes, d.typeRandom), d)
  }

  /** A generated question: choice types get the four levels, numeric ones
      the 1 to 5 range and the fixed rating text, short-text ones the fixed
      strength text, any other a sample text; the condition is always
      empty. A seeded question is never a file upload. */
  lemma GenerateQuestionShape(kind: QuestionType, d: QuestionDraw)
    requires ValidQuestionDraw(d)
    ensures var q := GenerateQuestion(kind, d);
      q.id == d.id && q.kind == kind &&
      (q.options == if kind in {SingleChoice, MultiChoice} then ChoiceOptions else []) &&
      q.validation["required"] == Bool(d.required) &&
      (kind == Numeric ==> q.validation == map["required" := Bool(d.required), "min" := Int(1), "max" := Int(5)] && q.text == NumericText) &&
      (kind != Numeric ==> q.validation == map["required" := Bool(d.required)]) &&
      (kind == ShortText ==> q.text == ShortTextText) &&
      (kind !in {ShortText, Numeric} ==> q.text in SampleQuestions) &&
      q.conditional == Some(map["dependsOn" := Null, "showIfValue" := Str("")])
    ensures SeedQuestion(d).kind != FileUpload
  {
  }

  /** Each assessment's draws: the structure's `nanoid()`, the two
      sections' ids, and six question draws per section. */
  datatype AssessmentDraw = AssessmentDraw(structureId: string, sectionIds: seq<string>, questions: seq<seq<QuestionDraw>>)

  predicate ValidAssessmentDraw(d: AssessmentDraw) {
    |d.sectionIds| == SectionsPerAssessment && |d.questions| == SectionsPerAssessment &&
    forall s :: 0 <= s < |d.questions| ==>
      |d.questions[s]| == QuestionsPerSection && forall q :: 0 <= q < |d.questions[s]| ==> ValidQuestionDraw(d.questions[s][q])
  }

  function SectionTitle(s: nat): string {
    if s == 0 then "Technical Skills" else "Behavioral Questions"
  }

  function SeedSection(s: nat, id: string, qd: seq<QuestionDraw>): Section
    requires forall q :: 0 <= q < |qd| ==> ValidQuestionDraw(qd[q])
  {
    Section(id, SectionTitle(s), seq(|qd|, q requires 0 <= q < |qd| => SeedQuestion(qd[q])))
  }

  function SeedSections(d: AssessmentDraw): seq<Section>
    requires ValidAssessmentDraw(d)
  {
    seq(SectionsPerAssessment, s requires 0 <= s < SectionsPerAssessment => SeedSection(s, d.sectionIds[s], d.questions[s]))
  }

  function AssessmentTitle(job: Job): string {
    job.title + " Assessment"
  }

  function SeedAssessment(job: Job, d: AssessmentDraw): NewAssessment
    requires ValidAssessmentDraw(d)
  {
    NewAssessment(Some(job.id), AssessmentTitle(job), Structure(Some(d.structureId), AssessmentTitle(job), SeedSections(d)))
  }

  /** The three assessments, or `None` for the `TypeError` that reading
      the title of a missing fourth-or-earlier job raises. */
  function SeedAssessmentList(created: seq<Job>, ad: seq<AssessmentDraw>): Option<seq<NewAssessment>>
    requires |ad| == AssessmentCount && forall i :: 0 <= i < |ad| ==> ValidAssessmentDraw(ad[i])
  {
    if |created| < AssessmentCount then None
    else Some(seq(AssessmentCount, i requires 0 <= i < AssessmentCount => SeedAssessment(created[i], ad[i])))
  }

  method BuildQuestions(qd: seq<QuestionDraw>) returns (questions: seq<Question>)
    requires |qd| == QuestionsPerSection && forall q :: 0 <= q < |qd| ==> ValidQuestionDraw(qd[q])
    ensures questions == SeedSection(0, "", qd).questions
  {
    questions := [];
    var q := 0;
    while q < QuestionsPerSection
      invariant 0 <= q <= QuestionsPerSection
      invariant |questions| == q && forall k :: 0 <= k < q ==> questions[k] == SeedQuestion(qd[k])
    {
      var kind := Pick(SeedQuestionTypes, qd[q].typeRandom);
      questions := questions + [GenerateQuestion(kind, qd[q])];
      q := q + 1;
    }
  }

  method BuildSections(d: AssessmentDraw) returns (sections: seq<Section>)
    requires ValidAssessmentDraw(d)
    ensures sections == SeedSections(d)
  {
    sections := [];
    var s := 0;
    while s < SectionsPerAssessment
      invariant 0 <= s <= SectionsPerAssessment
      invariant |sections| == s && forall k :: 0 <= k < s ==> sections[k] == SeedSection(k, d.sectionIds[k], d.questions[k])
    {
      var questions := BuildQuestions(d.questions[s]);
      sections := sections + [Section(d.sectionIds[s], SectionTitle(s), questions)];
      s := s + 1;
    }
  }

  method BuildAssessments(created: seq<Job>, ad: seq<AssessmentDraw>) returns (r: Option<seq<NewAssessment>>)
    requires |ad| == AssessmentCount && forall i :: 0 <= i < |ad| ==> ValidAssessmentDraw(ad[i])
    ensures r == SeedAssessmentList(created, ad)
  {
    var assessments: seq<NewAssessment> := [];
    var i := 0;
    while i < AssessmentCount
      invariant 0 <= i <= AssessmentCount && i <= |created|
      invariant |assessments| == i && forall k :: 0 <= k < i ==> assessments[k] == SeedAssessment(created[k], ad[k])
    {
      var sections := BuildSections(ad[i]);
      if i >= |created| {
        return None;
      }
      var title := AssessmentTitle(created[i]);
      assessments := assessments + [NewAssessment(Some(created[i].id), title, Structure(Some(ad[i].structureId), title, sections))];
      i := i + 1;
    }
    assert assessments == seq(AssessmentCount, k requires 0 <= k < AssessmentCount => SeedAssessment(created[k], ad[k]));
    r := Some(assessments);
  }

  /** The seeded assessments are for the first three jobs read back, each
      titled after its job, with a "Technical Skills" and a "Behavioral
      Questions" section of six questions. */
  lemma SeedAssessmentsForFirstJobs(created: seq<Job>, ad: seq<AssessmentDraw>)
    requires |ad| == AssessmentCount && forall i :: 0 <= i < |ad| ==> ValidAssessmentDraw(ad[i])
    ensures SeedAssessmentList(created, ad).None? <==> |created| < AssessmentCount
    ensures SeedAssessmentList(created, ad).Some? ==>
      var list := SeedAssessmentList(created, ad).value;
      |list| == AssessmentCount &&
      forall i :: 0 <= i < AssessmentCount ==>
        list[i].jobId == Some(created[i].id as int) &&
        list[i].title == created[i].title + " Assessment" && list[i].structure.title == list[i].title &&
        |list[i].structure.sections| == SectionsPerAssessment &&
        list[i].structure.sections[0].title == "Technical Skills" &&
        list[i].structure.sections[1].title == "Behavioral Questions" &&
        forall s :: 0 <= s < SectionsPerAssessment ==> |list[i].structure.sections[s].questions| == QuestionsPerSection
  {
  }

  // ---------------------------------------------------------------------
  // runSeed

  datatype SeedOutcome = Skipped | Seeded | Failed

  predicate ValidDraws(jd: seq<JobDraw>, cd: seq<CandidateDraw>, ad: seq<AssessmentDraw>) {
    |jd| == JobCount && |cd| == CandidateCount && |ad| == AssessmentCount &&
    (forall i :: 0 <= i < |jd| ==> ValidJobDraw(jd[i])) &&
    (forall i :: 0 <= i < |cd| ==> ValidCandidateDraw(cd[i])) &&
    (forall i :: 0 <= i < |ad| ==> ValidAssessmentDraw(ad[i]))
  }

  /** The tables after a transaction that commits, or `None` when its own
      logic fails (a missing job or a duplicate `jobId`). */
  function SeedResult(t: Tables, jd: seq<JobDraw>, cd: seq<CandidateDraw>, ad: seq<AssessmentDraw>): Option<Tables>
    requires ValidDraws(jd, cd, ad)
  {
    var withJobs := t.WithJobs(SeedJobList(jd));
    var created := withJobs.JobRows();
    var withCandidates := withJobs.WithCandidates(SeedCandidateList(created, cd));
    var assessments := SeedAssessmentList(created, ad);
    if assessments.None? then None
    else
      var withAssessments := withCandidates.WithAssessments(assessments.value);
      if withAssessments.Err? then None else Some(withAssessments.value)
  }

  /** `runSeed`: skipped when a job exists; otherwise all three tables are
      filled in one transaction, which commits exactly when every store call
      succeeds and the seed's logic does not fail, and otherwise leaves the
      store as it was. A failed count is caught and changes nothing. */
  method RunSeed(db: Database, jd: seq<JobDraw>, cd: seq<CandidateDraw>, ad: seq<AssessmentDraw>,
                 countOk: bool, jobsOk: bool, candidatesOk: bool, assessmentsOk: bool) returns (r: SeedOutcome)
    requires db.Valid() && ValidDraws(jd, cd, ad)
    modifies db
    ensures db.Valid()
    ensures !countOk ==> r == Failed
    ensures countOk && old(db.tables).jobs != map[] ==> r == Skipped
    ensures countOk && old(db.tables).jobs == map[] ==>
      (r == Seeded <==> jobsOk && candidatesOk && assessmentsOk && SeedResult(old(db.tables), jd, cd, ad).Some?)
    ensures r == Seeded ==> Some(db.tables) == SeedResult(old(db.tables), jd, cd, ad)
    ensures r != Seeded ==> db.tables == old(db.tables)
  {
    if !countOk {
      return Failed;
    }
    JobRowsEmptyIffNoJobs(db.tables);
    var jobCount := |db.tables.JobRows()|;
    if jobCount > 0 {
      return Skipped;
    }
    var snapshot := db.tables;
    var jobs := BuildJobs(jd);
    var addedJobs := db.BulkAddJobs(jobs, jobsOk);
    if addedJobs.Err? {
      db.Abort(snapshot);
      return Failed;
    }
    var created := db.tables.JobRows();
    var cands := BuildCandidates(created, cd);
    var addedCands := db.BulkAddCandidates(cands, candidatesOk);
    if addedCands.Err? {
      db.Abort(snapshot);
      return Failed;
    }
    var assessments := BuildAssessments(created, ad);
    if assessments.None? {
      db.Abort(snapshot);
      return Failed;
    }
    WithAssessmentsProperties(db.tables, assessments.value);
    var addedAssessments := db.BulkAddAssessments(assessments.value, assessmentsOk);
    if addedAssessments.Err? {
      db.Abort(snapshot);
      return Failed;
    }
    r := Seeded;
  }

  /** Into a fresh store the seeded jobs are read back under keys 1 to 25. */
  lemma FreshJobsReadBack(jd: seq<JobDraw>)
    requires |jd| == JobCount && forall i :: 0 <= i < |jd| ==> ValidJobDraw(jd[i])
    ensures EmptyTables.WithJobs(SeedJobList(jd)).Valid()
    ensures var created := EmptyTables.WithJobs(SeedJobList(jd)).JobRows();
      |created| == JobCount && forall i :: 0 <= i < |created| ==> created[i].id == 1 + i
  {
    EmptyTablesValid();
    WithJobsProperties(EmptyTables, SeedJobList(jd));
    SeededJobsReadBack(EmptyTables, jd);
  }

  /** A batch for distinct jobs added to an empty table raises nothing. */
  lemma DistinctJobsNoConflict(t: Tables, ns: seq<NewAssessment>)
    requires t.assessments == map[]
    requires forall i :: 0 <= i < |ns| ==> ns[i].jobId == Some(1 + i)
    ensures !t.BatchConflict(ns)
  {
  }

  /** Seeding a fresh store commits: its 25 jobs are read back under keys 1
      to 25, and the three assessments go to distinct jobs, so the unique
      index raises nothing; assessment `k` is the one for job `k`. */
  lemma FreshStoreSeeds(jd: seq<JobDraw>, cd: seq<CandidateDraw>, ad: seq<AssessmentDraw>)
    requires ValidDraws(jd, cd, ad)
    ensures SeedResult(EmptyTables, jd, cd, ad).Some?
    ensures var t := SeedResult(EmptyTables, jd, cd, ad).value;
      t.Valid() && t.assessments.Keys == {1, 2, 3} &&
      forall k :: k in t.assessments ==> t.assessments[k].jobId == Some(k)
  {
    var withJobs := EmptyTables.WithJobs(SeedJobList(jd));
    FreshJobsReadBack(jd);
    var created := withJobs.JobRows();
    var withCandidates := withJobs.WithCandidates(SeedCandidateList(created, cd));
    WithCandidatesProperties(withJobs, SeedCandidateList(created, cd));
    var list := SeedAssessmentList(created, ad).value;
    DistinctJobsNoConflict(withCandidates, list);
    WithAssessmentsProperties(withCandidates, list);
    var done := withCandidates.WithAssessments(list).value;
    assert done.assessments == Appended(map[], 1, list, AssessmentNamed);
    AppendedAt(map[], 1, list, AssessmentNamed);
    assert done.assessments.Keys == {1, 2, 3};
    forall k | k in done.assessments
      ensures done.assessments[k].jobId == Some(k)
    {
      assert done.assessments[1 + (k - 1)] == AssessmentNamed(1 + (k - 1), list[k - 1]);
    }
  }
}
