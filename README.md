# Learning-type quiz: the tally and the quiz page

This project models the logic of a learning-style quiz in Dafny. A student
enters a name, a class and an email on the quiz page and answers two
questions. Each question's four options stand for the four learning types
Visual, Auditory, Reading/Writing and Kinesthetic. On submit the page sends
the chosen types to the server. The server counts how often each type
occurs and picks the dominant one. It then stores a result record with that
type's badge and replies with the record and the type's description.

Modules:

- `Wrappers`: `Option`, which stands for JavaScript's `undefined` and for a
  reply that never came.
- `JsObject`: a plain JavaScript object used as a dictionary (`Object<V>`).
  It has a key list in the order `Object.keys`/`Object.entries` report,
  following section 10.1.11.1 (OrdinaryOwnPropertyKeys) of ECMAScript:
  - array-index keys come first, in ascending order;
  - every other key follows, in creation order.

  `Put` is `o[k] = v` and `{...o, [k]: v}`.
- `LearningTypes`: the four type names, shared by both sides.
- `ResultController`: the server handler `calculateResult`.
  - `Tally` is the `forEach` loop, proved against the specification
    function `CountTable`.
  - `PickDominant` is the `reduce` fold.
  - `BadgeUrls` and `LearningDetails` are the constant tables.
  - `CalculateResult` is the whole handler, including its 500 paths.
- `QuizPage`: the quiz component. `Page` is a class holding the state
  `step`, `studentInfo` and `answers`, and its methods are the event
  handlers. `OptionMapping` and `FormatAnswers` are the pure conversions.
- `QuizFlow`: both sides together. It covers what the page's answers become
  on the server and which type the student gets.

The environment becomes parameters:

- `CalculateResult` takes `created`, the id `prisma.result.create` assigns,
  or None when the call throws.
- `Page.Submit` takes `userReply`, the id in the reply to the user POST, or
  None when that request throws.

The error reply always carries the fixed message "Error calculating result",
as `resultController.js` does. It is not the raw error text of the thrown
exception.

## Model

| member | source | states |
|---|---|---|
| JsObject.Put | backend/src/controllers/resultController.js:12 | After `o[k] = v`, `k` holds `v` and every other key keeps its value. An existing key keeps its place in the key list. A new non-index key goes at the end. A new index key leaves the order of the non-index keys unchanged. |
| JsObject.PutValid | frontend/app/quiz/page.js:57-62 | Assignment keeps an object well formed: no repeated keys, key list equal to the stored keys, indices first and ascending. |
| JsObject.AddKey | backend/src/controllers/resultController.js:12 | A new key adds exactly one entry to the key list. A non-index key is appended. An index key leaves the non-index keys as they were. |
| JsObject.InsertIndexOrdered | backend/src/controllers/resultController.js:16 | Inserting an array-index key keeps the key list in the standard order. |
| JsObject.Empty | backend/src/controllers/resultController.js:10 | `{}` is well formed and has no keys. |
| JsObject.Get | backend/src/controllers/resultController.js:12 | `o[k]` is defined iff `k` is a key, and then it is the stored value. |
| JsObject.PutIdempotent | frontend/app/quiz/page.js:57-62 | Storing the same value twice gives the same object as storing it once, so selecting the same option twice equals selecting it once. |
| JsObject.PutOverwrites | frontend/app/quiz/page.js:57-62 | A second assignment to a key overwrites the first, giving the same object as the second assignment alone. |
| JsObject.NonIndexKeysAreAll | backend/src/controllers/resultController.js:16 | With no array-index key, the key list is entirely creation order. |
| ResultController.CountTable | backend/src/controllers/resultController.js:10-13 | `typeCount` after the loop has seen `answers`: its keys are exactly the types that occur. |
| ResultController.Tally | backend/src/controllers/resultController.js:10-13 | The loop produces `CountTable(answers)`, a well-formed object. Its keys are exactly the occurring types, each type's count is its number of occurrences, and the non-index keys are in first-occurrence order. |
| ResultController.CountTableSpec | backend/src/controllers/resultController.js:10-13 | Counts equal occurrences (`multiset(answers)[x]`). A type is a key iff it occurs. Non-index keys follow first-occurrence order. |
| ResultController.CountsSumToLength | backend/src/controllers/resultController.js:10-13 | The counts add up to the number of answers. |
| ResultController.PickDominant | backend/src/controllers/resultController.js:16-18 | The fold over a non-empty key list returns one of the keys. |
| ResultController.PickDominantIsLastMax | backend/src/controllers/resultController.js:16-18 | The fold returns a key of maximum count. Every key after it in the list has a strictly smaller count, so ties go to the later key. |
| ResultController.DominantType | backend/src/controllers/resultController.js:16-18 | No dominant type exists iff the answers are empty, where `reduce` throws. Otherwise it is one of the submitted answers. |
| ResultController.DominantIsMostFrequent | backend/src/controllers/resultController.js:16-18 | No type occurs more often than the dominant type. |
| ResultController.DominantTieBreak | backend/src/controllers/resultController.js:16-18 | The dominant type sits in `Object.keys(typeCount)`, and every key listed after it occurs strictly less often. |
| ResultController.KeysInFirstOccurrenceOrder | backend/src/controllers/resultController.js:10-16 | With no array-index answer, `Object.keys(typeCount)` is the answers without repetitions, in first-occurrence order. |
| ResultController.DominantByFirstOccurrence | backend/src/controllers/resultController.js:10-18 | With no array-index answer, the dominant type is the maximum-count type that first occurs last. It is at least as frequent as every type, and every type first occurring after it is strictly less frequent. |
| ResultController.TwoAnswersPickSecond | backend/src/controllers/resultController.js:16-18 | Two non-index answers give the second one, both when they tie at one each and when they are equal. |
| ResultController.BadgeUrls | backend/src/controllers/resultController.js:21-26 | The badge table has exactly the four types as keys. Distinct types have distinct badge paths. |
| ResultController.BadgeUrl | backend/src/controllers/resultController.js:68 | `badgeUrls[type]` is defined iff the type is one of the four, and then it is one of the table's paths. |
| ResultController.Suggestions | backend/src/controllers/resultController.js:32-36 | A suggestions table has exactly the keys "1", "2" and "3", holding the three given texts. |
| ResultController.LearningDetails | backend/src/controllers/resultController.js:29-62 | The details table has exactly the four types as keys. |
| ResultController.DetailsHaveThreeSuggestions | backend/src/controllers/resultController.js:29-62 | Every type's suggestions table has exactly the keys "1", "2" and "3". |
| ResultController.CalculateResult | backend/src/controllers/resultController.js:5-80 | Missing or empty answers, or a failing create, give 500 "Error calculating result" with nothing stored. Otherwise the record (id, userId, dominant type, its badge) is stored. A known type is answered with that record, its speciality and its suggestions. An unknown type still leaves the record stored but is answered with 500. |
| QuizPage.QuestionIds | frontend/app/quiz/page.js:9-30 | The question ids are distinct and none is an array index. |
| QuizPage.DummyQuestions | frontend/app/quiz/page.js:9-30 | There are two questions, with ids "q1" and "q2" and four options each. |
| QuizPage.OptionMapping | frontend/app/quiz/page.js:32-37 | `optionMapping[index]` is defined iff 0 <= index < 4, and then it is a known learning type. |
| QuizPage.OptionMappingValues | frontend/app/quiz/page.js:32-37 | Options 0, 1, 2 and 3 map to Visual, Auditory, Reading/Writing and Kinesthetic. |
| QuizPage.OptionMappingInjective | frontend/app/quiz/page.js:32-37 | Distinct options give distinct types. |
| QuizPage.FormatEntries | frontend/app/quiz/page.js:77 | One entry per listed key, each `optionMapping` of that key's stored index. |
| QuizPage.FormatAnswers | frontend/app/quiz/page.js:77 | `formattedAnswers` has one entry per answered question, in `Object.entries` order, each `optionMapping` of the stored index. |
| QuizPage.AnswersAfter | frontend/app/quiz/page.js:57-62 | After a series of `handleOptionSelect` calls from `{}`, the answered questions are exactly the selected ones. |
| QuizPage.HistoryFromButtons | frontend/app/quiz/page.js:157-173 | Selections made with the buttons, each a question id with an index in 0..3, leave only such answers. |
| QuizPage.SelectedIds | frontend/app/quiz/page.js:57-62 | The ids of a series of selections, position by position. |
| QuizPage.SelectionOrder | frontend/app/quiz/page.js:57-77 | After a series of selections, the answered questions are exactly the selected ones. `answers` lists them in the order each was first selected. |
| QuizPage.AnsweredAtMostAll | frontend/app/quiz/page.js:157-173 | Button answers never exceed the number of questions. |
| QuizPage.NoDupWithin | frontend/app/quiz/page.js:157-173 | A repetition-free list drawn from a set is no longer than the set. |
| QuizPage.CompleteIffAllAnswered | frontend/app/quiz/page.js:67 | The length check passes iff every question has an answer. |
| QuizPage.Page.constructor | frontend/app/quiz/page.js:41-47 | The initial state: step 1, empty details, empty answers. |
| QuizPage.Page.EnterName | frontend/app/quiz/page.js:122 | Only the name field changes. |
| QuizPage.Page.EnterClass | frontend/app/quiz/page.js:129 | Only the class field changes. |
| QuizPage.Page.EnterEmail | frontend/app/quiz/page.js:136 | Only the email field changes. |
| QuizPage.Page.StartQuiz | frontend/app/quiz/page.js:49-55 | The method reports `started` and moves to step 2 iff name, class and email are all non-empty. Otherwise the step is unchanged. Details and answers are untouched. |
| QuizPage.Page.SelectOption | frontend/app/quiz/page.js:57-62 | `answers` becomes `Put(answers, questionId, idx)`. The selected question holds `idx`, and every other question's entry is unchanged. |
| QuizPage.Page.ClickOption | frontend/app/quiz/page.js:157-173 | A button click keeps every key a question id and every index in 0..3, and keeps at most two answers. |
| QuizPage.Page.Submit | frontend/app/quiz/page.js:64-99 | No request is sent iff the number of answers differs from the number of questions. After a failed user request, no result request is sent. Otherwise the result request carries the user's id and `formattedAnswers`. |
| QuizFlow.WireAnswer | frontend/app/quiz/page.js:84-88 | A type reaches the server as itself. An undefined entry reaches it as the key "null". |
| QuizFlow.WireAnswers | frontend/app/quiz/page.js:84-88 | The sent array keeps the length and is pointwise `WireAnswer`. |
| QuizFlow.OptionTypesAreKnown | frontend/app/quiz/page.js:32-37 | Every option's type has a badge and an entry in the details table. |
| QuizFlow.ButtonAnswersAreKnownTypes | frontend/app/quiz/page.js:77 | Answers made with the buttons arrive as known types, none of them an array index. |
| QuizFlow.SubmittedQuizHasKnownType | backend/src/controllers/resultController.js:16-76 | A complete button quiz yields a dominant type, and it is a known type. |
| QuizFlow.LaterAnsweredQuestionDecides | frontend/app/quiz/page.js:77 | With both questions answered by the buttons, the server's dominant type is `optionMapping` of the index stored under the second key of `answers`. |
| QuizFlow.FirstSelectedLaterDecides | frontend/app/quiz/page.js:57-77 | After any series of button selections that reaches both questions, `answers` is well formed and lists the two questions in first-selection order. The server's dominant type is `optionMapping` of the index last given to the question whose first selection came later. |
| QuizFlow.Sent | frontend/app/quiz/page.js:77-88 | The array the server receives has one entry per answered question, in `Object.entries` order. Each entry is the wire form of `optionMapping` of that question's stored index. |

## Left out

- Prisma: `prisma.result.create` is the `created` parameter. The model does not decide whether the store accepts a record whose `badgeUrl` is undefined; `created` decides that.
- Network requests become the parameter `userReply`. `alert` calls become the `Incomplete` and `UserRequestFailed` outcomes.
- The result POST's own reply and the `router.push` navigation after it are left out. That navigation step is not part of this model.
- `console.log` calls are left out.
- JSX rendering and animation are left out. Two kinds of event handler are kept: the three Inputs' `onChange` handlers, as `Page.EnterName`, `Page.EnterClass` and `Page.EnterEmail`, and the buttons' calls to `handleOptionSelect`, as `Page.ClickOption`.
- Keys named after `Object.prototype` members, such as "__proto__" or "toString", are left out. The model treats `typeCount` as a dictionary without a prototype. In JavaScript, `typeCount["toString"] || 0` would read the inherited function.
- `answers == None` stands for every body whose `answers` is not an array: missing, a string, a number, a boolean, null or a plain object. A value parsed from JSON of any of these kinds has no `forEach`, so the loop throws and the catch block answers 500, as the model does.
- Arrays whose elements are not strings (numbers, booleans, objects) are left out. Their elements would become property keys through their string forms. A null element is covered on the page side: `WireAnswer` sends it as the key "null".
- `CalculateResult`: the stored record has only the fields the handler sets plus the assigned id. Columns the database adds, such as timestamps, would be spread into the reply too and are not modelled.
- Concurrency of the asynchronous handlers, and React's batching of state updates, are left out. Each handler is one atomic step.
- The user, quiz, email and referral controllers, the route files and the server wiring are not part of this model.
