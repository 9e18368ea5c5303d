/** The records a quiz is made of: the templates it is built from and the questions it holds. */
module QuizModel {
  import opened Wrappers

  /**
   * The `selected` property of a question object: `Absent` while the object
   * has no own property of that name, `Cleared` once it holds `undefined`,
   * `Chosen` while it holds the index of the choice the user picked.
   */
  datatype Selection = Absent | Cleared | Chosen(choice: int)

  /**
   * A resolved question: its text with the placeholders filled in, the
   * shuffled choices, the position of the correct choice, the 1-based
   * display number once one was assigned, and the user's selection.
   */
  datatype Question = Question(
    text: string,
    choices: seq<string>,
    answer: int,
    index: Option<int>,
    selected: Selection)

  /**
   * A question as the quiz template describes it: a text with `{param1}` and
   * `{param2}` placeholders, and the query strings in `choices` (the
   * correct-answer query first, the wrong-answers query template second).
   * The queries only form request URLs, which this model leaves out, so
   * nothing here reads `choices`; the field is kept to show the template's shape.
   */
  datatype QuestionTemplate = QuestionTemplate(question: string, choices: seq<string>)

  /** A quiz template after normalisation: `uid` and `name` may be undefined, `questions` is a list. */
  datatype QuizTemplate = QuizTemplate(uid: Option<string>, name: Option<string>, questions: seq<QuestionTemplate>)
}
