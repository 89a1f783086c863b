/** The assessment form: renders every question of every section
    (conditional logic is not applied), dispatching on the question type, and
    keeps a response map that each answer updates by one key. */
module AssessmentForm {
  import opened Common
  import opened AssessmentStructure

  /** The control a question renders. Only three types have one. */
  datatype Control =
    | TextInput(value: string)
    | TextArea(value: string)
    | RadioGroup(name: string, count: nat)
    | Unsupported(message: string)

  const UnsupportedMessage: string := "Unsupported question type."

  datatype RenderedQuestion = RenderedQuestion(caption: string, control: Control)
  datatype RenderedSection = RenderedSection(legend: string, questions: seq<RenderedQuestion>)
  datatype RenderedForm = RenderedForm(heading: string, sections: seq<RenderedSection>)

  /** `response || ''` for a text control. */
  function ShownText(responses: map<string, Value>, id: string): string {
    if id in responses && responses[id].Str? then responses[id].s else ""
  }

  /** `renderQuestion`. */
  function RenderControl(q: Question, responses: map<string, Value>): Control {
    match q.kind
    case ShortText => TextInput(ShownText(responses, q.id))
    case LongText => TextArea(ShownText(responses, q.id))
    case SingleChoice => RadioGroup(q.id, |q.options|)
    case _ => Unsupported(UnsupportedMessage)
  }

  /** The text a text control shows, if the question has one. */
  function ShownValue(c: Control): Option<string> {
    match c
    case TextInput(v) => Some(v)
    case TextArea(v) => Some(v)
    case _ => None
  }

  /** What the form shows for a question once an answer has been typed:
      a text question shows the typed string; answering another question
      leaves it as it was; a choice question shows its options whatever the
      answers; the other types show the unsupported message. */
  lemma AnswerIsShown(q: Question, responses: map<string, Value>, id: string, typed: string)
    ensures q.kind in {ShortText, LongText} ==>
      ShownValue(RenderControl(q, responses[q.id := Str(typed)])) == Some(typed)
    ensures q.kind in {ShortText, LongText} && !(q.id in responses && responses[q.id].Str?) ==>
      ShownValue(RenderControl(q, responses)) == Some("")
    ensures id != q.id ==> RenderControl(q, responses[id := Str(typed)]) == RenderControl(q, responses)
    ensures q.kind == SingleChoice ==> RenderControl(q, responses) == RadioGroup(q.id, |q.options|)
    ensures q.kind !in {ShortText, LongText, SingleChoice} <==> RenderControl(q, responses) == Unsupported(UnsupportedMessage)
  {
  }

  function RenderQuestions(qs: seq<Question>, responses: map<string, Value>): seq<RenderedQuestion> {
    if qs == [] then []
    else [RenderedQuestion(qs[0].text, RenderControl(qs[0], responses))] + RenderQuestions(qs[1..], responses)
  }

  function RenderSections(ss: seq<Section>, responses: map<string, Value>): seq<RenderedSection> {
    if ss == [] then []
    else [RenderedSection(ss[0].title, RenderQuestions(ss[0].questions, responses))] + RenderSections(ss[1..], responses)
  }

  /** The form for a structure, or nothing when there is none. */
  function RenderForm(s: Option<Structure>, responses: map<string, Value>): Option<RenderedForm> {
    if s.None? then None else Some(RenderedForm(s.value.title, RenderSections(s.value.sections, responses)))
  }

  lemma {:induction false} RenderQuestionsAll(qs: seq<Question>, responses: map<string, Value>)
    ensures |RenderQuestions(qs, responses)| == |qs|
    ensures forall k :: 0 <= k < |qs| ==>
      RenderQuestions(qs, responses)[k] == RenderedQuestion(qs[k].text, RenderControl(qs[k], responses))
  {
    if qs != [] {
      RenderQuestionsAll(qs[1..], responses);
      assert forall k :: 1 <= k < |qs| ==> qs[k] == qs[1..][k - 1];
    }
  }

  lemma {:induction false} RenderSectionsAll(ss: seq<Section>, responses: map<string, Value>)
    ensures |RenderSections(ss, responses)| == |ss|
    ensures forall k :: 0 <= k < |ss| ==>
      RenderSections(ss, responses)[k].legend == ss[k].title &&
      RenderSections(ss, responses)[k].questions == RenderQuestions(ss[k].questions, responses)
  {
    if ss != [] {
      RenderSectionsAll(ss[1..], responses);
      assert forall k :: 1 <= k < |ss| ==> ss[k] == ss[1..][k - 1];
    }
  }

  /** A null structure renders nothing; otherwise every question of every
      section is rendered, in order, with the control its type selects. */
  lemma RenderFormShowsEveryQuestion(s: Option<Structure>, responses: map<string, Value>)
    ensures s.None? <==> RenderForm(s, responses).None?
    ensures s.Some? ==>
      var f := RenderForm(s, responses).value;
      f.heading == s.value.title && |f.sections| == |s.value.sections| &&
      forall i :: 0 <= i < |f.sections| ==>
        |f.sections[i].questions| == |s.value.sections[i].questions| &&
        forall k :: 0 <= k < |f.sections[i].questions| ==>
          f.sections[i].questions[k] ==
            RenderedQuestion(s.value.sections[i].questions[k].text, RenderControl(s.value.sections[i].questions[k], responses))
  {
    if s.Some? {
      RenderSectionsAll(s.value.sections, responses);
      forall i | 0 <= i < |s.value.sections| {
        RenderQuestionsAll(s.value.sections[i].questions, responses);
      }
    }
  }

  /** The form's response state and its optional change callback; `emitted`
      records the maps passed to the callback. */
  class ResponseForm {
    var responses: map<string, Value>
    const hasCallback: bool
    var emitted: seq<map<string, Value>>

    constructor (initialResponses: map<string, Value>, hasCallback: bool)
      ensures responses == initialResponses && this.hasCallback == hasCallback && emitted == []
    {
      responses := initialResponses;
      this.hasCallback := hasCallback;
      emitted := [];
    }

    /** `handleResponseChange`: one key set to the new value, the rest kept;
        the new map is passed on only when a callback was given. */
    method HandleResponseChange(questionId: string, value: Value)
      modifies this
      ensures responses.Keys == old(responses).Keys + {questionId}
      ensures responses[questionId] == value
      ensures forall k :: k in old(responses) && k != questionId ==> responses[k] == old(responses)[k]
      ensures emitted == old(emitted) + (if hasCallback then [responses] else [])
    {
      var newResponses := responses[questionId := value];
      responses := newResponses;
      if hasCallback {
        emitted := emitted + [newResponses];
      }
    }
  }
}
