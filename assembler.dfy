/**
 * Building a quiz from its JSON template: normalisation of missing input,
 * the join over all question resolutions, the quiz object with its cursor
 * before the first question, and the 1-based numbering of the questions.
 * The scenario methods at the end walk built quizzes through the navigator.
 */
module Assembler {
  import opened Wrappers
  import opened QuizModel
  import opened Resolver
  import opened Navigator

  /** The template as it arrives: any property may be missing (`null` or `undefined`). */
  datatype QuizData = QuizData(uid: Option<string>, name: Option<string>, questions: Option<seq<QuestionTemplate>>)

  /**
   * Missing data is read as an empty object and a missing question list as
   * an empty list; uid, name and a present list are kept, and no input is
   * rejected.
   */
  function Normalize(data: Option<QuizData>): (t: QuizTemplate)
    ensures data == None ==> t == QuizTemplate(None, None, [])
    ensures data.Some? ==> t.uid == data.value.uid && t.name == data.value.name
    ensures data.Some? ==> t.questions == if data.value.questions.Some? then data.value.questions.value else []
  {
    var d := if data.Some? then data.value else QuizData(None, None, None);
    var qs := if d.questions.Some? then d.questions.value else [];
    QuizTemplate(d.uid, d.name, qs)
  }

  /**
   * Builds the quiz: every question template is resolved from its lookups;
   * if one resolution fails the build fails with that error, otherwise the
   * quiz holds the resolved questions, numbered from 1, with the cursor at -1.
   */
  method BuildFromJSON(data: Option<QuizData>, lookups: seq<Lookups>, supplant: Supplant)
    returns (r: Result<Quiz, Error>)
    requires |lookups| == |Normalize(data).questions|
    requires forall i :: 0 <= i < |lookups| ==> ShuffleFits(lookups[i])
    ensures var t := Normalize(data);
            var resolved := ResolveAll(t.questions, lookups, supplant);
            && (r.Success? <==> resolved.Success?)
            && (r.Failure? ==> r.error == resolved.error)
            && (r.Success? ==>
                 && fresh(r.value)
                 && r.value.Valid()
                 && r.value.uid == t.uid && r.value.name == t.name
                 && r.value.numQuestions == |t.questions|
                 && r.value.index == -1
                 && r.value.questions == WithIndices(resolved.value))
  {
    var t := Normalize(data);
    var numQuestions := |t.questions|;
    var resolved := ResolveAll(t.questions, lookups, supplant);
    match resolved {
      case Failure(e) =>
        r := Failure(e);
      case Success(qs) =>
        var quiz := new Quiz(t.uid, t.name, numQuestions, qs);
        quiz := quiz.AddQuestionIndices();
        r := Success(quiz);
    }
  }

  /**
   * Every question of a built quiz carries its 1-based position, and its
   * answer index points, inside the choice list, at the first occurrence of
   * the correct value its lookup returned.
   */
  lemma BuiltQuestionsAreNumberedAndAnswered(t: QuizTemplate, lookups: seq<Lookups>, supplant: Supplant, i: nat)
    requires |lookups| == |t.questions|
    requires forall k :: 0 <= k < |lookups| ==> ShuffleFits(lookups[k])
    requires ResolveAll(t.questions, lookups, supplant).Success?
    requires i < |t.questions|
    ensures var qs := WithIndices(ResolveAll(t.questions, lookups, supplant).value);
            var correct := lookups[i].correct.bindings[0].answer.value;
            && |qs| == |t.questions|
            && qs[i].index == Some(i + 1)
            && 0 <= qs[i].answer < |qs[i].choices|
            && qs[i].choices[qs[i].answer] == correct
            && forall j :: 0 <= j < qs[i].answer ==> qs[i].choices[j] != correct
  {
  }

  /** With no question templates, the build succeeds and the quiz has nothing to navigate. */
  method EmptyTemplateScenario(data: Option<QuizData>, supplant: Supplant)
    returns (built: bool, numQuestions: nat, hasNext: bool, current: Option<Question>, cursor: int)
    requires data.None? || data.value.questions.None? || data.value.questions == Some([])
    ensures built && numQuestions == 0 && !hasNext && current == None && cursor == -1
  {
    var r := BuildFromJSON(data, [], supplant);
    built := r.Success?;
    numQuestions, hasNext, current, cursor := 1, true, None, 0;
    match r {
      case Failure(_) =>
        assert false;
      case Success(quiz) =>
        numQuestions := quiz.numQuestions;
        hasNext := quiz.HasNext();
        current := quiz.Current();
        cursor := quiz.index;
    }
  }

  /**
   * A two-question template that builds: the cursor starts at -1;
   * successive `nextQuestion` calls return question 1 (cursor 0) and then
   * question 2 (cursor 1), after which `hasNext` is false, a further call
   * returns nothing and the cursor stays on the last question, which
   * `current` does not report.
   */
  method TwoQuestionWalk(data: Option<QuizData>, lookups: seq<Lookups>, supplant: Supplant)
    returns (start: int, first: Option<Question>, cursor1: int, second: Option<Question>, cursor2: int,
             more: bool, third: Option<Question>, cursor3: int, current: Option<Question>)
    requires |Normalize(data).questions| == 2 && |lookups| == 2
    requires forall i :: 0 <= i < |lookups| ==> ShuffleFits(lookups[i])
    requires ResolveAll(Normalize(data).questions, lookups, supplant).Success?
    ensures var qs := ResolveAll(Normalize(data).questions, lookups, supplant).value;
            && start == -1
            && first == Some(qs[0].(index := Some(1))) && cursor1 == 0
            && second == Some(qs[1].(index := Some(2))) && cursor2 == 1
            && !more && third == None && cursor3 == 1 && current == None
  {
    start, first, cursor1, second, cursor2, more, third, cursor3, current := 0, None, 0, None, 0, false, None, 0, None;
    var r := BuildFromJSON(data, lookups, supplant);
    match r {
      case Failure(_) =>
        assert false;
      case Success(quiz) =>
        start := quiz.index;
        first := quiz.NextQuestion();
        cursor1 := quiz.index;
        second := quiz.NextQuestion();
        cursor2 := quiz.index;
        more := quiz.HasNext();
        third := quiz.NextQuestion();
        cursor3 := quiz.index;
        current := quiz.Current();
    }
  }

  /**
   * Seeking to number 0 or past the end returns nothing and leaves the
   * cursor alone; seeking to number 2 returns the second question and puts
   * the cursor on it; after a reset, `nextQuestion` starts again from the
   * first question, whose selection is cleared, while the second question's
   * selection survives the reset.
   */
  method SeekAndResetScenario(q1: Question, q2: Question)
    returns (outside: Option<Question>, below: Option<Question>, cursorAfterMiss: int,
             atSecond: Option<Question>, cursorAfterSeek: int,
             restart: Option<Question>, secondAfterReset: Question)
    requires q1.selected.Chosen? && q2.selected.Chosen?
    ensures outside == None && below == None && cursorAfterMiss == -1
    ensures atSecond == Some(q2) && cursorAfterSeek == 1
    ensures restart == Some(q1.(selected := Cleared))
    ensures secondAfterReset == q2
  {
    var quiz := new Quiz(None, None, 2, [q1, q2]);
    outside := quiz.SeekQuestion(3);
    below := quiz.SeekQuestion(0);
    cursorAfterMiss := quiz.index;
    atSecond := quiz.SeekQuestion(2);
    cursorAfterSeek := quiz.index;
    quiz.Reset();
    restart := quiz.NextQuestion();
    secondAfterReset := quiz.questions[1];
  }
}
