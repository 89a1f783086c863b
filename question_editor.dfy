/** The question editor's helpers: each builds the question's new options,
    validation or conditional object from the current question and emits a
    field-update action. The builder's reducer does not recognise that
    action type. */
module QuestionEditor {
  import opened Common
  import opened AssessmentStructure
  import opened AssessmentBuilder

  /** What the editor dispatches: a field update addressed by section and
      question index, or a delete. */
  datatype EditorAction =
    | UpdateQuestionField(sIdx: nat, qIdx: nat, field: QuestionField)
    | DeleteQuestionAt(sectionIndex: nat, questionIndex: nat)

  const FieldUpdateType: string := "UPDATE_QUESTION_FIELD"

  /** How the builder's reducer sees an editor action. */
  function AsBuilderAction(e: EditorAction): BuilderAction {
    match e
    case UpdateQuestionField(_, _, _) => Unrecognised(FieldUpdateType)
    case DeleteQuestionAt(i, j) => DeleteQuestion(i, j)
  }

  /** Field edits from the editor leave the builder's state as it was;
      deletes are carried out. */
  lemma EditorFieldUpdatesIgnored(s: Structure, e: EditorAction)
    requires e.UpdateQuestionField?
    ensures Applicable(s, AsBuilderAction(e)) && Reduce(s, AsBuilderAction(e)) == s
  {
  }

  lemma EditorDeleteIsBuilderDelete(s: Structure, i: nat, j: nat)
    requires i < |s.sections|
    ensures Reduce(s, AsBuilderAction(DeleteQuestionAt(i, j))) == Reduce(s, DeleteQuestion(i, j))
  {
  }

  /** The question the editor is showing, with its position. */
  datatype Editing = Editing(question: Question, sectionIndex: nat, questionIndex: nat)

  function HandleFieldChange(e: Editing, f: QuestionField): EditorAction {
    UpdateQuestionField(e.sectionIndex, e.questionIndex, f)
  }

  /** `{ ...question.validation, [key]: value }`. */
  function NewValidation(q: Question, key: string, v: Value): map<string, Value> {
    q.validation[key := v]
  }

  /** `{ ...question.conditional, [key]: value }`; spreading an absent
      conditional contributes no keys. */
  function NewConditional(q: Question, key: string, v: Value): map<string, Value> {
    (if q.conditional.Some? then q.conditional.value else map[])[key := v]
  }

  function HandleValidationChange(e: Editing, key: string, v: Value): EditorAction {
    HandleFieldChange(e, ValidationField(NewValidation(e.question, key, v)))
  }

  function HandleConditionalChange(e: Editing, key: string, v: Value): EditorAction {
    HandleFieldChange(e, ConditionalField(Some(NewConditional(e.question, key, v))))
  }

  /** A validation or conditional change overwrites one key and keeps every
      other key with its value. */
  lemma SubObjectChangeOverwritesOneKey(q: Question, key: string, v: Value)
    ensures NewValidation(q, key, v).Keys == q.validation.Keys + {key}
    ensures NewValidation(q, key, v)[key] == v
    ensures forall k :: k in q.validation && k != key ==> NewValidation(q, key, v)[k] == q.validation[k]
    ensures q.conditional.Some? ==> NewConditional(q, key, v).Keys == q.conditional.value.Keys + {key}
    ensures q.conditional.None? ==> NewConditional(q, key, v) == map[key := v]
    ensures NewConditional(q, key, v)[key] == v
    ensures q.conditional.Some? ==>
      forall k :: k in q.conditional.value && k != key ==> NewConditional(q, key, v)[k] == q.conditional.value[k]
  {
  }

  /** `newOptions[optIndex] = value` on a copy; the editor only calls it
      for the index of a rendered option. */
  function ChangedOptions(q: Question, optIndex: nat, value: string): seq<string>
    requires optIndex < |q.options|
  {
    q.options[optIndex := value]
  }

  function AddedOptions(q: Question): seq<string> {
    q.options + [""]
  }

  function RemovedOptions(q: Question, optIndex: nat): seq<string> {
    RemoveAt(q.options, optIndex)
  }

  function HandleOptionChange(e: Editing, optIndex: nat, value: string): EditorAction
    requires optIndex < |e.question.options|
  {
    HandleFieldChange(e, OptionsField(ChangedOptions(e.question, optIndex, value)))
  }

  function AddOption(e: Editing): EditorAction {
    HandleFieldChange(e, OptionsField(AddedOptions(e.question)))
  }

  function RemoveOption(e: Editing, optIndex: nat): EditorAction {
    HandleFieldChange(e, OptionsField(RemovedOptions(e.question, optIndex)))
  }

  lemma OptionEdits(q: Question, optIndex: nat, value: string)
    ensures optIndex < |q.options| ==>
      |ChangedOptions(q, optIndex, value)| == |q.options| &&
      ChangedOptions(q, optIndex, value)[optIndex] == value &&
      forall k :: 0 <= k < |q.options| && k != optIndex ==> ChangedOptions(q, optIndex, value)[k] == q.options[k]
    ensures AddedOptions(q)[..|q.options|] == q.options && |AddedOptions(q)| == |q.options| + 1 &&
            AddedOptions(q)[|q.options|] == ""
    ensures optIndex < |q.options| ==>
      |RemovedOptions(q, optIndex)| == |q.options| - 1 &&
      RemovedOptions(q, optIndex) == q.options[..optIndex] + q.options[optIndex + 1..]
    ensures optIndex >= |q.options| ==> RemovedOptions(q, optIndex) == q.options
  {
  }

  /** `allQuestions.filter(q => q.id !== question.id)`. */
  function AvailableConditional(all: seq<Question>, q: Question): seq<Question> {
    if all == [] then []
    else (if all[0].id != q.id then [all[0]] else []) + AvailableConditional(all[1..], q)
  }

  /** A question is offered as a dependency iff it is one of the questions
      and has a different id; in particular never the question itself. */
  lemma {:induction false} AvailableConditionalMembers(all: seq<Question>, q: Question, x: Question)
    ensures x in AvailableConditional(all, q) <==> x in all && x.id != q.id
    ensures q !in AvailableConditional(all, q)
    ensures |AvailableConditional(all, q)| <= |all|
  {
    if all != [] {
      AvailableConditionalMembers(all[1..], q, x);
      assert all == [all[0]] + all[1..];
    }
  }

  /** `e.target.value || null`: the "Show always" entry has value '' and is
      stored as null. */
  function DependsOnValue(selected: string): Value {
    if selected == "" then Null else Str(selected)
  }

  function SelectDependency(e: Editing, selected: string): EditorAction {
    HandleConditionalChange(e, "dependsOn", DependsOnValue(selected))
  }

  lemma ShowAlwaysStoresNull(e: Editing, selected: string)
    ensures selected == "" ==> SelectDependency(e, selected).field.conditional.value["dependsOn"] == Null
    ensures selected != "" ==> SelectDependency(e, selected).field.conditional.value["dependsOn"] == Str(selected)
  {
  }

  /** The delete button's action. */
  function DeleteAction(e: Editing): EditorAction {
    DeleteQuestionAt(e.sectionIndex, e.questionIndex)
  }

  lemma EditorPayloads(e: Editing, f: QuestionField)
    ensures HandleFieldChange(e, f) == UpdateQuestionField(e.sectionIndex, e.questionIndex, f)
    ensures AsBuilderAction(HandleFieldChange(e, f)) == Unrecognised("UPDATE_QUESTION_FIELD")
    ensures AsBuilderAction(DeleteAction(e)) == DeleteQuestion(e.sectionIndex, e.questionIndex)
  {
  }
}
