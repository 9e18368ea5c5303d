/**
 * The quiz object: its question list and the navigation cursor that the
 * builder's closures share (`index` and `numQuestions`), with the
 * operations the quiz exposes (`current`, `hasNext`, `nextQuestion`,
 * `seekQuestion`, `reset`) and the decoration of the questions with their
 * 1-based display numbers.
 */
module Navigator {
  import opened Wrappers
  import opened QuizModel

  /** What the reset callback does to one question: an existing `selected` property becomes `undefined`. */
  function ClearSelection(q: Question): (r: Question)
    ensures r.selected == if q.selected == Absent then Absent else Cleared
    ensures r.(selected := q.selected) == q
  {
    if q.selected.Absent? then q else q.(selected := Cleared)
  }

  /**
   * The question list after a reset. The callback handed to `_.every`
   * returns `undefined`, which is falsy, so `_.every` stops after the first
   * question: only that one has its selection cleared.
   */
  function AfterReset(qs: seq<Question>): (r: seq<Question>)
    ensures |r| == |qs|
    ensures |qs| > 0 ==> r[0] == ClearSelection(qs[0])
    ensures forall i :: 1 <= i < |qs| ==> r[i] == qs[i]
  {
    if qs == [] then [] else [ClearSelection(qs[0])] + qs[1..]
  }

  /**
   * A reset changes no field but `selected`: the first question's becomes
   * `undefined` if it had one, and every later question keeps its own.
   */
  lemma AfterResetChangesOnlyFirstSelection(qs: seq<Question>)
    ensures |AfterReset(qs)| == |qs|
    ensures forall i :: 0 <= i < |qs| ==> AfterReset(qs)[i].(selected := qs[i].selected) == qs[i]
    ensures |qs| > 0 ==> AfterReset(qs)[0].selected == if qs[0].selected == Absent then Absent else Cleared
    ensures forall i :: 1 <= i < |qs| ==> AfterReset(qs)[i].selected == qs[i].selected
  {
  }

  /** The questions numbered 1, 2, ... in list order. */
  function WithIndices(qs: seq<Question>): (r: seq<Question>)
    ensures |r| == |qs|
    ensures forall i :: 0 <= i < |qs| ==> r[i].index == Some(i + 1)
    ensures forall i :: 0 <= i < |qs| ==> r[i].(index := qs[i].index) == qs[i]
  {
    seq(|qs|, i requires 0 <= i < |qs| => qs[i].(index := Some(i + 1)))
  }

  class Quiz {
    const uid: Option<string>
    const name: Option<string>
    /** Fixed when the quiz is built: the number of question templates. */
    const numQuestions: nat
    var questions: seq<Question>
    /** The cursor: -1 before the first question, else the 0-based position of the question last moved to. */
    var index: int

    ghost predicate Valid()
      reads this
    {
      && |questions| == numQuestions
      && -1 <= index <= numQuestions - 1
    }

    /** A freshly built quiz: the cursor stands before the first question. */
    constructor (uid: Option<string>, name: Option<string>, numQuestions: nat, questions: seq<Question>)
      requires |questions| == numQuestions
      ensures Valid()
      ensures this.uid == uid && this.name == name
      ensures this.numQuestions == numQuestions && this.questions == questions
      ensures index == -1
    {
      this.uid := uid;
      this.name := name;
      this.numQuestions := numQuestions;
      this.questions := questions;
      index := -1;
    }

    /**
     * The question under the cursor. The range check stops one short of the
     * end, so the last question is never reported as current.
     */
    function Current(): (r: Option<Question>)
      reads this
      requires Valid()
      ensures r.Some? <==> 0 <= index < numQuestions - 1
      ensures r.Some? ==> r.value == questions[index]
      ensures index == numQuestions - 1 ==> r == None
    {
      var inRange := numQuestions > 0 && index > -1 && index < numQuestions - 1;
      if inRange then Some(questions[index]) else None
    }

    /** Whether another question follows the cursor. */
    function HasNext(): (b: bool)
      reads this
      requires Valid()
      ensures b <==> index < numQuestions - 1
      ensures b ==> 0 <= index + 1 < |questions|
      ensures !b <==> numQuestions == 0 || index == numQuestions - 1
    {
      numQuestions != 0 && index < numQuestions - 1
    }

    /** Moves the cursor one question on and returns that question; at the end it does nothing. */
    method NextQuestion() returns (q: Option<Question>)
      requires Valid()
      modifies this`index
      ensures Valid()
      ensures old(HasNext()) ==> index == old(index) + 1 && q == Some(questions[index])
      ensures !old(HasNext()) ==> index == old(index) && q == None
    {
      if HasNext() {
        index := index + 1;
        q := Some(questions[index]);
      } else {
        q := None;
      }
    }

    /**
     * Moves the cursor to the question with 1-based number `val` and returns
     * it; a number outside 1 .. numQuestions leaves the cursor where it is.
     */
    method SeekQuestion(val: int) returns (q: Option<Question>)
      requires Valid()
      modifies this`index
      ensures Valid()
      ensures 1 <= val <= numQuestions ==> index == val - 1 && q == Some(questions[val - 1])
      ensures !(1 <= val <= numQuestions) ==> index == old(index) && q == None
    {
      var pos := val - 1;
      var inRange := numQuestions > 0 && pos > -1 && pos < numQuestions;
      q := if inRange then Some(questions[pos]) else None;
      index := if inRange then pos else index;
    }

    /**
     * Puts the cursor back before the first question and clears selections,
     * visiting the questions the way `_.every` does: in order, stopping at
     * the first falsy callback result.
     */
    method Reset()
      requires Valid()
      modifies this
      ensures Valid()
      ensures index == -1
      ensures questions == AfterReset(old(questions))
    {
      index := -1;
      var i := 0;
      var more := true;
      while more && i < |questions|
        invariant 0 <= i <= |questions| == numQuestions
        invariant more <==> i == 0
        invariant questions == if i == 0 then old(questions) else AfterReset(old(questions))
        invariant index == -1
      {
        if questions[i].selected != Absent {
          questions := questions[i := questions[i].(selected := Cleared)];
        }
        // the callback returns undefined
        more := false;
        i := i + 1;
      }
    }

    /** Numbers every question with its 1-based position, in place, and returns the same quiz. */
    method AddQuestionIndices() returns (quiz: Quiz)
      requires Valid()
      modifies this`questions
      ensures quiz == this
      ensures Valid()
      ensures questions == WithIndices(old(questions))
    {
      var i := 0;
      while i < |questions|
        invariant 0 <= i <= |questions| == numQuestions
        invariant forall k :: 0 <= k < i ==> questions[k] == old(questions)[k].(index := Some(k + 1))
        invariant forall k :: i <= k < |questions| ==> questions[k] == old(questions)[k]
      {
        questions := questions[i := questions[i].(index := Some(i + 1))];
        i := i + 1;
      }
      quiz := this;
    }
  }
}
