/**
 * Resolution of one question template into a question, from the responses
 * of its two knowledge-graph lookups, and the all-or-nothing join over the
 * resolutions of a whole quiz.
 *
 * The lookups themselves are network requests; here their responses are
 * inputs, as is the outcome of the random shuffle and the placeholder
 * interpolation (`supplant`), whose definition is not part of this model.
 */
module Resolver {
  import opened Wrappers
  import opened Choices
  import opened QuizModel

  /** One row of a query response: the value of each variable of the row, when the row binds it. */
  datatype Binding = Binding(
    answer: Option<string>,
    answerUri: Option<string>,
    param1: Option<string>,
    param2: Option<string>)

  /** A lookup's outcome: the rows of `results.bindings`, or a failed request. */
  datatype Response = Rows(bindings: seq<Binding>) | Failed

  /** What the environment supplies for one question: both responses and the permutation the shuffle chose. */
  datatype Lookups = Lookups(correct: Response, wrong: Response, shuffle: seq<nat>)

  /**
   * Why a resolution was rejected: a failed request, a correct-answer
   * response without rows, or a row lacking a variable the code reads
   * (in the source, a `TypeError` thrown inside a promise callback).
   */
  datatype Error = FetchFailed | NoBindings | MissingValue(variable: string)

  /** Placeholder interpolation: a template and a map from placeholder names to values. */
  type Supplant = (string, map<string, string>) -> string

  /** The shuffle's permutation has one entry per choice: one per wrong-answer row, plus the correct answer. */
  predicate ShuffleFits(l: Lookups) {
    l.wrong.Rows? ==> IsPermutation(l.shuffle, |l.wrong.bindings| + 1)
  }

  /** The `answer` value of every wrong-answer row, in row order; rejected when some row has none. */
  function WrongValues(rows: seq<Binding>): (r: Result<seq<string>, Error>)
    ensures r.Success? <==> forall i :: 0 <= i < |rows| ==> rows[i].answer.Some?
    ensures r.Success? ==> |r.value| == |rows| && forall i :: 0 <= i < |rows| ==> r.value[i] == rows[i].answer.value
    ensures r.Failure? ==> r.error == MissingValue("answer")
    decreases |rows|
  {
    if rows == [] then Success([])
    else if rows[0].answer.None? then Failure(MissingValue("answer"))
    else match WrongValues(rows[1..])
      case Failure(e) => Failure(e)
      case Success(vs) => Success([rows[0].answer.value] + vs)
  }

  /** The values interpolated into the question text; `param2` defaults to the empty string. */
  function TextParams(top: Binding): (m: map<string, string>)
    requires top.param1.Some?
    ensures m.Keys == {"param1", "param2"}
    ensures m["param1"] == top.param1.value
    ensures m["param2"] == if top.param2.Some? then top.param2.value else ""
  {
    map["param1" := top.param1.value, "param2" := if top.param2.Some? then top.param2.value else ""]
  }

  /** Every value the resolution reads is present: both requests succeeded and the rows bind what is read. */
  predicate Resolvable(l: Lookups) {
    && l.correct.Rows?
    && |l.correct.bindings| > 0
    && l.correct.bindings[0].answerUri.Some?
    && l.correct.bindings[0].answer.Some?
    && l.correct.bindings[0].param1.Some?
    && l.wrong.Rows?
    && forall i :: 0 <= i < |l.wrong.bindings| ==> l.wrong.bindings[i].answer.Some?
  }

  /**
   * Resolves one question template. The first row of the correct-answer
   * response supplies the correct answer (and the URI the wrong-answers
   * query is built from, and the text parameters); each row of the
   * wrong-answers response supplies one wrong answer. The values are read in
   * the order the source reads them, so the first missing one is reported.
   */
  function ResolveQuestion(t: QuestionTemplate, l: Lookups, supplant: Supplant): (r: Result<Question, Error>)
    requires ShuffleFits(l)
    ensures r.Success? <==> Resolvable(l)
    ensures l.correct.Failed? ==> r == Failure(FetchFailed)
    ensures l.correct.Rows? && |l.correct.bindings| == 0 ==> r == Failure(NoBindings)
    ensures l.correct.Rows? && |l.correct.bindings| > 0 ==>
      var top := l.correct.bindings[0];
      && (top.answerUri.None? ==> r == Failure(MissingValue("answer_uri")))
      && (top.answerUri.Some? && l.wrong.Failed? ==> r == Failure(FetchFailed))
      && (top.answerUri.Some? && l.wrong.Rows? && WrongValues(l.wrong.bindings).Failure? ==>
            r == Failure(MissingValue("answer")))
      && (top.answerUri.Some? && l.wrong.Rows? && WrongValues(l.wrong.bindings).Success? && top.answer.None? ==>
            r == Failure(MissingValue("answer")))
      && ((top.answerUri.Some? && l.wrong.Rows? && WrongValues(l.wrong.bindings).Success? && top.answer.Some?
           && top.param1.None?) ==> r == Failure(MissingValue("param1")))
    ensures r.Success? ==>
      var top := l.correct.bindings[0];
      var correct := top.answer.value;
      var q := r.value;
      && q.text == supplant(t.question, TextParams(top))
      && |q.choices| == |l.wrong.bindings| + 1
      && multiset(q.choices) == multiset(WrongValues(l.wrong.bindings).value) + multiset{correct}
      && 0 <= q.answer < |q.choices|
      && q.choices[q.answer] == correct
      && (forall j :: 0 <= j < q.answer ==> q.choices[j] != correct)
      && q.index == None
      && q.selected == Absent
  {
    if l.correct.Failed? then Failure(FetchFailed)
    else if |l.correct.bindings| == 0 then Failure(NoBindings)
    else
      var top := l.correct.bindings[0];
      if top.answerUri.None? then Failure(MissingValue("answer_uri"))
      else if l.wrong.Failed? then Failure(FetchFailed)
      else match WrongValues(l.wrong.bindings)
        case Failure(e) => Failure(e)
        case Success(wrong) =>
          if top.answer.None? then Failure(MissingValue("answer"))
          else if top.param1.None? then Failure(MissingValue("param1"))
          else
            var correct := top.answer.value;
            var choices := ShuffledChoices(wrong, correct, l.shuffle);
            AnswerLocatesCorrect(wrong, correct, l.shuffle);
            Success(Question(supplant(t.question, TextParams(top)), choices, IndexOf(choices, correct), None, Absent))
  }

  /**
   * The join over the outcomes of all resolutions (`$q.all`): it succeeds,
   * with the values in order, exactly when every outcome is a success, and
   * otherwise fails with the error of a failed one.
   */
  function Join<T, E>(rs: seq<Result<T, E>>): (r: Result<seq<T>, E>)
    ensures r.Success? <==> forall i :: 0 <= i < |rs| ==> rs[i].Success?
    ensures r.Success? ==> |r.value| == |rs| && forall i :: 0 <= i < |rs| ==> rs[i] == Success(r.value[i])
    ensures r.Failure? ==> exists i :: 0 <= i < |rs| && rs[i] == Failure(r.error)
    decreases |rs|
  {
    if rs == [] then Success([])
    else match rs[0]
      case Failure(e) => Failure(e)
      case Success(v) =>
        match Join(rs[1..])
        case Failure(e) => Failure(e)
        case Success(vs) => Success([v] + vs)
  }

  /** One resolution per question template, in template order (`_.map` over the templates). */
  function LoadQuestions(ts: seq<QuestionTemplate>, ls: seq<Lookups>, supplant: Supplant): (rs: seq<Result<Question, Error>>)
    requires |ls| == |ts|
    requires forall i :: 0 <= i < |ls| ==> ShuffleFits(ls[i])
    ensures |rs| == |ts|
    ensures forall i :: 0 <= i < |ts| ==> rs[i] == ResolveQuestion(ts[i], ls[i], supplant)
  {
    seq(|ts|, i requires 0 <= i < |ts| => ResolveQuestion(ts[i], ls[i], supplant))
  }

  /**
   * All question templates resolved and joined: success, with the questions
   * in template order, exactly when every resolution succeeds; otherwise the
   * error of a failed one.
   */
  function ResolveAll(ts: seq<QuestionTemplate>, ls: seq<Lookups>, supplant: Supplant): (r: Result<seq<Question>, Error>)
    requires |ls| == |ts|
    requires forall i :: 0 <= i < |ls| ==> ShuffleFits(ls[i])
    ensures r.Success? <==> forall i :: 0 <= i < |ts| ==> ResolveQuestion(ts[i], ls[i], supplant).Success?
    ensures r.Success? ==>
      && |r.value| == |ts|
      && forall i :: 0 <= i < |ts| ==> ResolveQuestion(ts[i], ls[i], supplant) == Success(r.value[i])
    ensures r.Failure? ==> exists i :: 0 <= i < |ts| && ResolveQuestion(ts[i], ls[i], supplant) == Failure(r.error)
  {
    var rs := LoadQuestions(ts, ls, supplant);
    assert forall i :: 0 <= i < |ts| ==> rs[i] == ResolveQuestion(ts[i], ls[i], supplant);
    Join(rs)
  }
}
