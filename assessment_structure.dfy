/** The nested shape of an assessment: a structure holds sections, a section
    holds questions. The builder edits it, the form renders it, the seed
    creates it and the store persists it unchanged inside an assessment
    record. */
module AssessmentStructure {
  import opened Common

  /** The scalar values a question's `validation` and `conditional` objects
      hold: `required`, `min`, `max`, `maxLength`, `dependsOn`, `showIfValue`. */
  datatype Value = Null | Bool(b: bool) | Int(i: int) | Str(s: string)

  datatype QuestionType = ShortText | LongText | SingleChoice | MultiChoice | Numeric | FileUpload

  /** A question. `validation` and `conditional` are JavaScript objects, so
      they are maps from key to value; `conditional` is absent on questions
      the builder creates. */
  datatype Question = Question(
    id: string,
    text: string,
    kind: QuestionType,
    options: seq<string>,
    validation: map<string, Value>,
    conditional: Option<map<string, Value>>)

  datatype Section = Section(id: string, title: string, questions: seq<Question>)

  /** The builder's state and the stored `structure`; the builder's initial
      state has no `id`. */
  datatype Structure = Structure(id: Option<string>, title: string, sections: seq<Section>)
}
