/** The assessment builder: a reducer over the nested structure (sections of
    questions), the page that holds its state, loads the stored structure for
    the route's job or a default one, and saves after edits, only the latest
    scheduled save taking effect. */
module AssessmentBuilder {
  import opened Common
  import opened AssessmentStructure
  import opened DexieDB

  /** One field of a question as `UPDATE_QUESTION` writes it with
      `question[field] = value`. */
  datatype QuestionField =
    | TextField(text: string)
    | KindField(kind: QuestionType)
    | OptionsField(options: seq<string>)
    | ValidationField(validation: map<string, Value>)
    | ConditionalField(conditional: Option<map<string, Value>>)

  const FieldNames: set<string> := {"text", "type", "options", "validation", "conditional"}

  function FieldName(f: QuestionField): string {
    match f
    case TextField(_) => "text"
    case KindField(_) => "type"
    case OptionsField(_) => "options"
    case ValidationField(_) => "validation"
    case ConditionalField(_) => "conditional"
  }

  /** `question[name]`, for the writable field names. */
  function ReadField(q: Question, name: string): QuestionField
    requires name in FieldNames
  {
    if name == "text" then TextField(q.text)
    else if name == "type" then KindField(q.kind)
    else if name == "options" then OptionsField(q.options)
    else if name == "validation" then ValidationField(q.validation)
    else ConditionalField(q.conditional)
  }

  /** `question[field] = value`. */
  function SetField(q: Question, f: QuestionField): Question {
    match f
    case TextField(t) => q.(text := t)
    case KindField(k) => q.(kind := k)
    case OptionsField(o) => q.(options := o)
    case ValidationField(v) => q.(validation := v)
    case ConditionalField(c) => q.(conditional := c)
  }

  /** Reading the written field gives the written value, every other field
      reads as before, and the id is kept. */
  lemma SetFieldSetsExactlyOneField(q: Question, f: QuestionField)
    ensures FieldName(f) in FieldNames
    ensures ReadField(SetField(q, f), FieldName(f)) == f
    ensures forall n :: n in FieldNames && n != FieldName(f) ==> ReadField(SetField(q, f), n) == ReadField(q, n)
    ensures SetField(q, f).id == q.id
  {
  }

  /** The builder's actions; `AddSection` and `AddQuestion` carry the fresh
      id that the reducer draws, and `Unrecognised` stands for any other
      action type. */
  datatype BuilderAction =
    | LoadAssessment(payload: Structure)
    | UpdateTitle(title: string)
    | AddSection(newId: string)
    | UpdateSectionTitle(sectionIndex: nat, title: string)
    | AddQuestion(sectionIndex: nat, newId: string)
    | UpdateQuestion(sectionIndex: nat, questionIndex: nat, field: QuestionField)
    | DeleteQuestion(sectionIndex: nat, questionIndex: nat)
    | Unrecognised(kind: string)

  /** The indices the action dereferences exist; otherwise the reducer
      throws on `undefined`. `DELETE_QUESTION` only needs the section: a
      `splice` past the end removes nothing. */
  predicate Applicable(s: Structure, a: BuilderAction) {
    match a
    case UpdateSectionTitle(i, _) => i < |s.sections|
    case AddQuestion(i, _) => i < |s.sections|
    case UpdateQuestion(i, j, _) => i < |s.sections| && j < |s.sections[i].questions|
    case DeleteQuestion(i, _) => i < |s.sections|
    case _ => true
  }

  function NewSection(id: string): Section {
    Section(id, "New Section", [])
  }

  /** The default question: short text, no options, not required, and no
      `conditional` field at all. */
  function NewQuestion(id: string): Question {
    Question(id, "New Question", ShortText, [], map["required" := Bool(false)], None)
  }

  function WithSection(s: Structure, i: nat, sec: Section): Structure
    requires i < |s.sections|
  {
    s.(sections := s.sections[i := sec])
  }

  /** `assessmentReducer`. The deep copy it starts from makes every case a
      function of the old state: the input is never changed. */
  function Reduce(s: Structure, a: BuilderAction): Structure
    requires Applicable(s, a)
  {
    match a
    case LoadAssessment(payload) => payload
    case UpdateTitle(t) => s.(title := t)
    case AddSection(id) => s.(sections := s.sections + [NewSection(id)])
    case UpdateSectionTitle(i, t) => WithSection(s, i, s.sections[i].(title := t))
    case AddQuestion(i, id) =>
      WithSection(s, i, s.sections[i].(questions := s.sections[i].questions + [NewQuestion(id)]))
    case UpdateQuestion(i, j, f) =>
      var sec := s.sections[i];
      WithSection(s, i, sec.(questions := sec.questions[j := SetField(sec.questions[j], f)]))
    case DeleteQuestion(i, j) =>
      WithSection(s, i, s.sections[i].(questions := RemoveAt(s.sections[i].questions, j)))
    case Unrecognised(_) => s
  }

  // -----------------------------------------------------------------------
  // Reducer properties

  lemma LoadAndUnrecognised(s: Structure, payload: Structure, kind: string)
    ensures Reduce(s, LoadAssessment(payload)) == payload
    ensures Reduce(s, Unrecognised(kind)) == s
  {
  }

  lemma UpdateTitleChangesOnlyTitle(s: Structure, t: string)
    ensures Reduce(s, UpdateTitle(t)).title == t
    ensures Reduce(s, UpdateTitle(t)).sections == s.sections && Reduce(s, UpdateTitle(t)).id == s.id
  {
  }

  lemma AddSectionAppendsOne(s: Structure, id: string)
    ensures |Reduce(s, AddSection(id)).sections| == |s.sections| + 1
    ensures Reduce(s, AddSection(id)).sections[..|s.sections|] == s.sections
    ensures Reduce(s, AddSection(id)).sections[|s.sections|] == Section(id, "New Section", [])
    ensures Reduce(s, AddSection(id)).title == s.title
  {
  }

  /** A predicate for "every section other than `i` is unchanged". */
  predicate OtherSectionsKept(s: Structure, r: Structure, i: nat) {
    |r.sections| == |s.sections| && r.title == s.title && r.id == s.id &&
    forall k :: 0 <= k < |s.sections| && k != i ==> r.sections[k] == s.sections[k]
  }

  lemma UpdateSectionTitleChangesOneTitle(s: Structure, i: nat, t: string)
    requires i < |s.sections|
    ensures OtherSectionsKept(s, Reduce(s, UpdateSectionTitle(i, t)), i)
    ensures Reduce(s, UpdateSectionTitle(i, t)).sections[i].title == t
    ensures Reduce(s, UpdateSectionTitle(i, t)).sections[i].questions == s.sections[i].questions
    ensures Reduce(s, UpdateSectionTitle(i, t)).sections[i].id == s.sections[i].id
  {
  }

  lemma AddQuestionAppendsDefault(s: Structure, i: nat, id: string)
    requires i < |s.sections|
    ensures OtherSectionsKept(s, Reduce(s, AddQuestion(i, id)), i)
    ensures Reduce(s, AddQuestion(i, id)).sections[i].questions == s.sections[i].questions + [NewQuestion(id)]
    ensures Reduce(s, AddQuestion(i, id)).sections[i].title == s.sections[i].title
    ensures NewQuestion(id).text == "New Question" && NewQuestion(id).kind == ShortText &&
            NewQuestion(id).options == [] && NewQuestion(id).validation == map["required" := Bool(false)] &&
            NewQuestion(id).conditional.None?
  {
  }

  lemma UpdateQuestionSetsOneField(s: Structure, i: nat, j: nat, f: QuestionField)
    requires i < |s.sections| && j < |s.sections[i].questions|
    ensures OtherSectionsKept(s, Reduce(s, UpdateQuestion(i, j, f)), i)
    ensures var qs := Reduce(s, UpdateQuestion(i, j, f)).sections[i].questions;
      |qs| == |s.sections[i].questions| &&
      ReadField(qs[j], FieldName(f)) == f &&
      (forall n :: n in FieldNames && n != FieldName(f) ==> ReadField(qs[j], n) == ReadField(s.sections[i].questions[j], n)) &&
      (forall k :: 0 <= k < |qs| && k != j ==> qs[k] == s.sections[i].questions[k])
  {
    SetFieldSetsExactlyOneField(s.sections[i].questions[j], f);
  }

  lemma DeleteQuestionRemovesOne(s: Structure, i: nat, j: nat)
    requires i < |s.sections|
    ensures OtherSectionsKept(s, Reduce(s, DeleteQuestion(i, j)), i)
    ensures var before := s.sections[i].questions;
      var after := Reduce(s, DeleteQuestion(i, j)).sections[i].questions;
      (j < |before| ==> |after| == |before| - 1 &&
                        (forall k :: 0 <= k < j ==> after[k] == before[k]) &&
                        (forall k :: j <= k < |after| ==> after[k] == before[k + 1])) &&
      (j >= |before| ==> after == before)
  {
    RemoveAtProperties(s.sections[i].questions, j);
  }

  // -----------------------------------------------------------------------
  // Loading and saving

  const DefaultTitle: string := "New Assessment"

  /** The state the page loads: the stored structure, or a fresh one. */
  function LoadOrDefault(existing: Option<AssessmentRecord>, newId: string): Structure {
    if existing.Some? then existing.value.structure else Structure(Some(newId), DefaultTitle, [])
  }

  /** The record a save `put`s: no primary key, the route's job key
      (`Number(jobId)`, `None` when that is NaN), the title and the whole
      state. */
  function SaveRecord(jobKey: Option<int>, s: Structure): NewAssessment {
    NewAssessment(jobKey, s.title, s)
  }

  /** What a save finds when the page loads again: the structure it stored.
      A second save for the same job then fails on the unique `jobId` index. */
  lemma SaveThenReload(t: Tables, jobKey: Option<int>, s: Structure, s2: Structure, newId: string)
    requires t.Valid() && jobKey.Some? && t.WithAssessment(SaveRecord(jobKey, s)).Ok?
    ensures var t2 := t.WithAssessment(SaveRecord(jobKey, s)).value;
      t2.AssessmentForJob(jobKey).Ok? && LoadOrDefault(t2.AssessmentForJob(jobKey).value, newId) == s &&
      t2.WithAssessment(SaveRecord(jobKey, s2)) == Err(ConstraintError)
  {
    WithAssessmentProperties(t, SaveRecord(jobKey, s));
    var t2 := t.WithAssessment(SaveRecord(jobKey, s)).value;
    var k := t.nextAssessmentId;
    assert k in t2.assessments && t2.assessments[k] == AssessmentNamed(k, SaveRecord(jobKey, s));
    AssessmentForJobFinds(t2, jobKey);
    var found := t2.AssessmentForJob(jobKey).value;
    if found.Some? {
      var k2 := found.value.id;
      assert t2.assessments[k2].jobId == t2.assessments[k].jobId;
      assert k2 == k;
    }
    SecondPutForSameJobFails(t, SaveRecord(jobKey, s), SaveRecord(jobKey, s2));
  }

  /** The save effect's decision after a state change: a save of the new
      state is scheduled when its title is non-empty, and any earlier one is
      cancelled either way. */
  function Scheduled(s: Structure): Option<Structure> {
    if s.title != "" then Some(s) else None
  }

  class BuilderPage {
    /** `Number(jobId)` of the route parameter. */
    const jobKey: Option<int>
    var state: Structure
    /** The save whose timer is running, if any: only the last one scheduled. */
    var pendingSave: Option<Structure>

    /** A pending save never has an empty title. */
    ghost predicate Valid() reads this {
      pendingSave.Some? ==> pendingSave.value.title != ""
    }

    constructor (jobKey: Option<int>)
      ensures Valid()
      ensures this.jobKey == jobKey && state == Structure(None, "", []) && pendingSave == None
    {
      this.jobKey := jobKey;
      state := Structure(None, "", []);
      pendingSave := None;
    }

    /** Dispatch one action and run the save effect. An unrecognised action
        returns the very same state object, so the effect does not run and a
        running timer keeps going. */
    method Dispatch(a: BuilderAction)
      requires Valid() && Applicable(state, a)
      modifies this
      ensures Valid()
      ensures state == Reduce(old(state), a)
      ensures pendingSave == if a.Unrecognised? then old(pendingSave) else Scheduled(state)
    {
      state := Reduce(state, a);
      if !a.Unrecognised? {
        pendingSave := Scheduled(state);
      }
    }

    /** The load effect's first run: until the live query settles, its
        answer is `undefined`, so a fresh "New Assessment" is loaded (and,
        its title being non-empty, a save of it is scheduled). */
    method Mount(newId: string)
      requires Valid()
      modifies this
      ensures Valid()
      ensures state == Structure(Some(newId), DefaultTitle, []) && pendingSave == Some(state)
    {
      Dispatch(LoadAssessment(LoadOrDefault(None, newId)));
    }

    /** The load effect, run when the live query answers: the stored
        structure for the route's job, or a fresh one when there is none. A
        NaN key's query is refused, so no answer reaches the effect and the
        state stays as it was. */
    method Load(db: Database, newId: string) returns (refused: bool)
      requires Valid() && db.Valid()
      modifies this
      ensures Valid()
      ensures refused <==> jobKey.None?
      ensures !refused ==>
        db.tables.AssessmentForJob(jobKey).Ok? &&
        state == LoadOrDefault(db.tables.AssessmentForJob(jobKey).value, newId) &&
        pendingSave == Scheduled(state)
      ensures !refused && !db.tables.JobIdTaken(jobKey) ==> state == Structure(Some(newId), DefaultTitle, [])
      ensures !refused && db.tables.JobIdTaken(jobKey) ==>
        exists k :: k in db.tables.assessments && db.tables.assessments[k].jobId == jobKey &&
                    state == db.tables.assessments[k].structure
      ensures refused ==> state == old(state) && pendingSave == old(pendingSave)
    {
      AssessmentForJobFinds(db.tables, jobKey);
      var answer := db.tables.AssessmentForJob(jobKey);
      if answer.Err? {
        return true;
      }
      refused := false;
      Dispatch(LoadAssessment(LoadOrDefault(answer.value, newId)));
    }

    /** The pending save's timer fires: the record is `put`, and no save is
        pending afterwards. */
    method TimerFires(db: Database, ok: bool) returns (r: Result<Id>)
      requires Valid() && db.Valid() && pendingSave.Some?
      modifies this, db
      ensures Valid() && db.Valid() && pendingSave == None && state == old(state)
      ensures var rec := SaveRecord(jobKey, old(pendingSave).value);
        rec.title != "" &&
        (ok && old(db.tables).WithAssessment(rec).Ok? ==>
          r == Ok(old(db.tables).nextAssessmentId) && db.tables == old(db.tables).WithAssessment(rec).value) &&
        (ok && old(db.tables).JobIdTaken(jobKey) ==> r == Err(ConstraintError) && db.tables == old(db.tables)) &&
        (!ok ==> r.Err? && db.tables == old(db.tables))
    {
      var rec := SaveRecord(jobKey, pendingSave.value);
      WithAssessmentProperties(db.tables, rec);
      r := db.PutAssessment(rec, ok);
      pendingSave := None;
    }
  }
}
