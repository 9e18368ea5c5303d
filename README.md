# SemanticQuiz quiz builder, modelled in Dafny

This project models the quiz builder of SemanticQuiz
(`client/src/quizzer/quiz/builders/SparqlQuizBuilder.js`). The builder turns a
quiz template into a multiple-choice quiz. For each question template it
takes the correct answer from one knowledge-graph lookup and the wrong answers
from a second one. It shuffles the choices and records the position of the first
choice equal to the correct answer. It then numbers the questions from 1 and hands out a quiz object.
That object has a navigation cursor and the operations `current`, `hasNext`,
`nextQuestion`, `seekQuestion` and `reset`.

Modules, leaves first:

- `Wrappers` (`wrappers.dfy`): `Option` stands for JavaScript's `null` result, `Result` for a rejected promise.
- `Choices` (`choices.dfy`): the shuffle, modelled as an index permutation the caller supplies, and `indexOf`.
- `QuizModel` (`quiz_model.dfy`): question templates, quiz templates and resolved questions.
- `Resolver` (`resolver.dfy`): resolving one question from the rows its two lookups returned. It also models the all-or-nothing join over all questions.
- `Navigator` (`navigator.dfy`): class `Quiz`, with the cursor `index` and the fixed `numQuestions` that the builder's closures share. It also holds the functions that define what reset and numbering produce.
- `Assembler` (`assembler.dfy`): input normalisation and `BuildFromJSON`. It ends with scenario methods that drive built quizzes through the navigator.

The class invariant `Quiz.Valid()` is `-1 <= index <= numQuestions - 1` together with `|questions| == numQuestions`. Every navigator method keeps it.

Two boundary behaviours of the code are kept as written:

- `current` reports a question only while `index < numQuestions - 1`, so the last question is never current. `hasNext`, by contrast, goes up to the last question.
- `reset` is described as clearing every question's selection. The code calls `_.every` with a callback that returns `undefined`, and `_.every` stops at the first falsy result. So only the first question's `selected` is cleared. The model follows the code (`AfterReset`, `Quiz.Reset`). `AfterResetChangesOnlyFirstSelection` and `SeekAndResetScenario` state the consequence.

An answer string that also appears among the wrong answers is kept too. `indexOf` maps it to its first occurrence, which need not be where the shuffle put the correct entry.

## Model

| member | source | states |
|---|---|---|
| `Choices.PermutationInRange` | client/src/quizzer/quiz/builders/SparqlQuizBuilder.js:72 | the shuffle's permutation of n positions has length n, stays below n, and hits every position |
| `Choices.ShufflePreservesElements` | client/src/quizzer/quiz/builders/SparqlQuizBuilder.js:72 | a shuffled list holds the same elements with the same multiplicities as the original |
| `Choices.IndexOf` | client/src/quizzer/quiz/builders/SparqlQuizBuilder.js:79 | `indexOf` gives -1 exactly when the value is absent; otherwise it gives a position holding the value with no earlier one |
| `Choices.ShuffledChoices` | client/src/quizzer/quiz/builders/SparqlQuizBuilder.js:71-72 | the choice list has one entry per wrong answer plus one, and is a permutation of the wrong answers followed by the correct one |
| `Choices.AnswerLocatesCorrect` | client/src/quizzer/quiz/builders/SparqlQuizBuilder.js:71-79 | for every shuffle the answer index is inside the choices, holds the correct value, and is its first occurrence |
| `Resolver.WrongValues` | client/src/quizzer/quiz/builders/SparqlQuizBuilder.js:71 | the wrong answers are each row's `answer` value in row order; a row without one rejects the resolution |
| `Resolver.TextParams` | client/src/quizzer/quiz/builders/SparqlQuizBuilder.js:74-77 | the text is interpolated with `param1` and with `param2` or, when `param2` is unbound, the empty string |
| `Resolver.ResolveQuestion` | client/src/quizzer/quiz/builders/SparqlQuizBuilder.js:57-81 | resolution succeeds exactly when both lookups succeed and every value read is bound; otherwise the error is the first failure in the source's reading order: a failed correct-answer lookup, an empty first response, a missing `answer_uri`, a failed wrong-answers lookup, a wrong-answer row without `answer`, a missing correct `answer`, a missing `param1`; a resolved question has its interpolated text, its choices, and an answer index at the first occurrence of the correct value; it has no number and no selection yet |
| `Resolver.LoadQuestions` | client/src/quizzer/quiz/builders/SparqlQuizBuilder.js:56-84 | one resolution per question template, in template order: entry i is the resolution of template i from lookups i |
| `Resolver.Join` | client/src/quizzer/quiz/builders/SparqlQuizBuilder.js:190 | `$q.all` succeeds exactly when every outcome succeeds, keeps their order and count, and otherwise fails with the error of some failed outcome |
| `Resolver.ResolveAll` | client/src/quizzer/quiz/builders/SparqlQuizBuilder.js:190-192 | the join succeeds exactly when every question resolves, keeps template order and length, and otherwise fails with the error of some failed resolution |
| `Navigator.ClearSelection` | client/src/quizzer/quiz/builders/SparqlQuizBuilder.js:143-145 | an existing `selected` becomes undefined, an absent one stays absent, and no other field changes |
| `Navigator.AfterReset` | client/src/quizzer/quiz/builders/SparqlQuizBuilder.js:141-146 | the list after a reset has the same length; its first question is that question with its selection cleared, and every later question is unchanged, because `_.every` stops after the first callback returns `undefined` |
| `Navigator.AfterResetChangesOnlyFirstSelection` | client/src/quizzer/quiz/builders/SparqlQuizBuilder.js:141-146 | a reset changes no field but `selected`; the first question's becomes undefined only if it had one, and every later question keeps its selection |
| `Navigator.WithIndices` | client/src/quizzer/quiz/builders/SparqlQuizBuilder.js:157-164 | numbering keeps the length, gives position i the number i + 1, and changes no other field |
| `Navigator.Quiz.constructor` | client/src/quizzer/quiz/builders/SparqlQuizBuilder.js:170-188 | a new quiz has the template's uid and name, the given questions, `numQuestions` equal to their count, and the cursor at -1 |
| `Navigator.Quiz.Current` | client/src/quizzer/quiz/builders/SparqlQuizBuilder.js:90-94 | the current question is `questions[index]` exactly when `0 <= index < numQuestions - 1`, else none; the last question is never current |
| `Navigator.Quiz.HasNext` | client/src/quizzer/quiz/builders/SparqlQuizBuilder.js:119-121 | true exactly when `index < numQuestions - 1`, false exactly when the quiz is empty or the cursor is on the last question, and reads no more than the state |
| `Navigator.Quiz.NextQuestion` | client/src/quizzer/quiz/builders/SparqlQuizBuilder.js:127-129 | when `hasNext` held, the cursor moves on by exactly one and that question is returned; otherwise nothing is returned and the cursor stays; the invariant `-1 <= index <= numQuestions - 1` is kept |
| `Navigator.Quiz.SeekQuestion` | client/src/quizzer/quiz/builders/SparqlQuizBuilder.js:100-111 | for `1 <= val <= numQuestions` the cursor becomes `val - 1` and that question is returned; for any other `val` nothing is returned and the cursor is unchanged |
| `Navigator.Quiz.Reset` | client/src/quizzer/quiz/builders/SparqlQuizBuilder.js:134-148 | the cursor becomes -1 and the questions become `AfterReset` of the old ones, visited as `_.every` visits them |
| `Navigator.Quiz.AddQuestionIndices` | client/src/quizzer/quiz/builders/SparqlQuizBuilder.js:157-164 | the questions, numbered in place, equal `WithIndices` of the old ones, and the same quiz is returned |
| `Assembler.Normalize` | client/src/quizzer/quiz/builders/SparqlQuizBuilder.js:200-205 | missing data reads as an empty object and a missing question list as an empty list; uid, name and a present list are kept; no input is rejected |
| `Assembler.BuildFromJSON` | client/src/quizzer/quiz/builders/SparqlQuizBuilder.js:170-207 | the build fails exactly when the join fails, with its error; otherwise it returns a new valid quiz with the template's uid and name, `numQuestions` equal to the number of templates, the cursor at -1, and the resolved questions numbered from 1 |
| `Assembler.BuiltQuestionsAreNumberedAndAnswered` | client/src/quizzer/quiz/builders/SparqlQuizBuilder.js:71-79 | every question of a built quiz carries its 1-based position, and its answer index points at the first occurrence of the correct value its lookup returned |
| `Assembler.EmptyTemplateScenario` | client/src/quizzer/quiz/builders/SparqlQuizBuilder.js:200-207 | missing data, a missing question list or an empty one builds a quiz with no questions, no next question, no current question and the cursor at -1 |
| `Assembler.TwoQuestionWalk` | client/src/quizzer/quiz/builders/SparqlQuizBuilder.js:119-129 | a two-question template that builds starts with the cursor at -1; `nextQuestion` returns question 1 (cursor 0) and then question 2 (cursor 1); after that `hasNext` is false, a further call returns nothing, the cursor stays at 1, and `current` reports nothing |
| `Assembler.SeekAndResetScenario` | client/src/quizzer/quiz/builders/SparqlQuizBuilder.js:100-148 | seeking to 3 or 0 on two questions returns nothing and leaves the cursor at -1; seeking to 2 returns question 2 and sets the cursor to 1; after a reset, `nextQuestion` restarts at question 1 with its selection cleared, and question 2 keeps its selection |

## Left out

- The two `$http.get` lookups and the template fetch are network I/O. Their outcomes are inputs (`Resolver.Lookups`): the rows of each response, or a failed request.
- Promise chaining and the timing of `$q.all` are asynchronous composition. `ResolveAll` models only the join's outcome.
- `Resolver.ResolveAll`: when several resolutions fail, `$q.all` rejects with the failure that happens first in time. The model reports the first failure in template order and promises only that the error is one of the failures.
- `supplant` interpolation is not part of this model. It is a function parameter (`Resolver.Supplant`) that can be any function.
- The query strings are left out because they only form request URLs. These are the SPARQL endpoint template and the strings built from `choices[0]`, `choices[1]` and `answer_uri`. Only the presence of `answer_uri` is modelled, since it is read before the second lookup.
- The randomness of `_.shuffle` is left out. The shuffle is a permutation supplied with the lookups, so each statement holds for every possible shuffle.
- The `console.log` and `$log` calls are logging and are not modelled.
- The `calculateScore: undefined` property is a placeholder the builder never sets, so it is not modelled.
- The quiz object's lifetime is simplified. The source creates the object with an empty question list before the join and fills it afterwards, but callers only see it after the join. The model creates it after the join.
- Question objects are modelled as values in the quiz's `questions` sequence. `Reset` and `AddQuestionIndices` reassign that sequence instead of mutating shared objects, so aliasing of a question object held elsewhere is not captured.
- The synchronous failure of a malformed question template is not modelled. `loadQuestions` reads `question_template.choices[0]` while mapping over the templates, before any request is made. A `null` template or one without `choices` therefore makes `buildFromJSON` throw a `TypeError` instead of returning a rejected promise. The model's `QuestionTemplate` always has a `choices` list and `QuizData.questions` holds no `null` entries, so this case cannot arise in it.
- `Assembler.Normalize` is pure. When `data` is present but has no `questions`, the source writes `data.questions = []` into the caller's own object. The model builds a new template instead, so it does not capture that write to the input.
- `hasNext` returns the number `0` for an empty quiz and a boolean otherwise. The model keeps only the truth value.
- `seekQuestion` is modelled for integer arguments only.
- `client/src/quizzer/quiz/delegates/QuizDelegate.js` is not part of this model. It holds the template fetch by id and the hand-off to an external score calculator.
- `client/src/quizzer/quiz/QuizModule.js` is not part of this model. It only registers services with the framework.
