# Session controller of the PRL adaptive tutor, in Dafny

The browser client of the PRL (workplace risk prevention) tutor is a chat
page. The learner first gives a role. After that, each turn is a
multiple-choice question answered with A, B, C or D. A remote worker decides
whether an answer is right, the counters and the level, and supplies the
question and explanation texts. The client decides from the reported values
whether an explanation comes before the next question. The client keeps:

- the record `userState` (three counters, the level, the phase `'role'` or
  `'question'`, and the role);
- the question being answered, `currentQuestion`;
- a busy flag, `isRequestInProgress`, which drops new input while a worker
  call is outstanding;
- a copy of `userState` in localStorage.

This project models that controller, which is the form's submit handler and
the continuations it schedules:

- `text.dfy` (module `TextInput`): the JavaScript trim, upper-casing and the
  answer test `/^[A-D]$/`.
- `state.dfy` (module `TutorState`): the state as values (`Machine`), worker
  replies as inputs (`Reply`, `Outcome`), and one step function for each piece
  of the handler. These are the submission, the option click, the reply to
  the role, to an answer, to an explanation request and to a question
  request, and a failed call. It also holds page start (`Boot`), saving
  (`Save`), runs of events (`Run`) and the invariant `Valid`.
- `session.dfy` (module `TutorSession`): class `Session`. Its fields are the
  page globals and the storage entry. Each handler is a method that updates
  them in place. Each method is proved to end in the state its step function
  describes.
- `properties.dfy` (module `TutorProperties`): what the handler guarantees,
  stated over the step functions.
- `findings.dfy` (module `TutorFixed`): the busy flag that is never cleared
  (see Findings), and the corrected handlers.

The field `pending` is the point where the asynchronous handler is waiting
for the worker. It is the role call (holding the text it captured), the
answer call, the explanation call or the question call. With it, each
`await` and `setTimeout` continuation becomes one sequential method call.

The client computes no level and no counter: the worker reports them and
the client copies them (script.js:244-247). An evaluation is committed and
saved before the next question is asked for, and a later failure undoes
nothing. The explanation step is triggered by
`result.levelChanged || result.questionsAsked % 5 === 0` (script.js:253).

## Model

| member | source | states |
|---|---|---|
| TextInput.TrimStart | script.js:158 | the result is a suffix of the input that does not start with white space; all that is cut off is white space |
| TextInput.TrimEnd | script.js:158 | the result is a prefix of the input that does not end with white space; all that is cut off is white space |
| TextInput.Trim | script.js:158-159 | the trimmed text is no longer than the input, is empty exactly when every character of the input is white space, and neither starts nor ends with white space |
| TextInput.TrimCutsOnlySpace | script.js:158 | the trimmed text is a contiguous piece of the input, and all that is cut from either end is white space |
| TextInput.Upper | script.js:226 | same length; each ASCII lower-case letter becomes its capital, every other character is kept, and no lower-case letter is left |
| TextInput.IsAnswerLabel | script.js:228 | `/^[A-D]$/` accepts a text exactly when it is one of "A", "B", "C", "D" |
| TextInput.AcceptedAnswers | script.js:226-228 | after upper-casing, `/^[A-D]$/` accepts exactly a, b, c, d, A, B, C and D |
| TutorState.Save | script.js:122-129 | the storage entry holds a copy of `userState` and nothing else changes |
| TutorState.Boot | script.js:131-152 | a page starts idle with no question; with no entry it has the initial `userState`; an entry with a role is restored as it was; an entry without a role is restored with phase 'role' |
| TutorState.SubmitStep | script.js:156-239 | a submission that sends nothing changes nothing; a rejected one happens only in phase 'question'; a sent one sets the busy flag, leaves a continuation waiting and carries the current `userState` and question; in phase 'role' it sends the trimmed, non-blank text and keeps it as the role to store; in phase 'question' it sends the trimmed text upper-cased, which is one of "A" to "D" |
| TutorState.SelectOptionStep | script.js:79-90 | a click while busy is ignored; one that sends nothing changes nothing; what it sends has no lower-case letter, and in phase 'question' is one of "A" to "D" |
| TutorState.RoleReplyStep | script.js:179-222 | question and busy flag are kept; a worker call follows exactly on a 'roleSet' reply, which stores the captured role, moves to phase 'question', saves that state and asks for a question with it; any other type only drops the continuation |
| TutorState.JsRemainder | script.js:253 | the JavaScript remainder has the sign of the dividend, is smaller than the divisor in size, and leaves a multiple of the divisor |
| TutorState.ExplanationDue | script.js:253 | the trigger written with Dafny's remainder is the JavaScript `levelChanged || questionsAsked % 5 === 0` for every count, negative ones included |
| TutorState.AnswerReplyStep | script.js:239-342 | question and busy flag are kept; a worker call follows exactly on an 'evaluation' reply, which copies the worker's counters and level, saves, and asks for an explanation exactly when one is due and otherwise for the next question, with the new `userState`; any other type only drops the continuation |
| TutorState.ExplanationReplyStep | script.js:256-304 | whatever the reply, `userState`, question, busy flag and entry are kept and the next question is asked for |
| TutorState.QuestionReplyStep | script.js:190-219 | the busy flag is cleared with no call waiting; `userState` and entry are kept; a 'question' reply becomes the current question, any other type keeps it (the same continuation is written again at script.js:267-297 and 309-338) |
| TutorState.FailureStep | script.js:344-348 | the busy flag is cleared with no call waiting; `userState`, question and entry are kept (so does every other catch and finally clause: script.js:212-218, 290-296, 298-302 and 331-337) |
| TutorState.Deliver | script.js:174-349 | a further worker call is made exactly when a continuation is left waiting, and it carries the new `userState` and question; the busy flag can only be cleared, and then with nothing waiting; `userState` changes only on a 'roleSet' or 'evaluation' reply and the question only on a 'question' reply |
| TutorProperties.RoleTextCaptured | script.js:158-183 | in phase 'role' an idle non-blank submission is sent as its trimmed text, which the continuation keeps as the role, and `userState` is untouched |
| TutorProperties.IgnoredIffBlankOrBusy | script.js:158-166 | a submission is dropped exactly when it is blank after trimming or a request is in progress, and a dropped one changes nothing |
| TutorProperties.ClickSubmitsUpperCasedLabel | script.js:79-90 | a click is ignored while busy, and otherwise is the submission of its upper-cased label |
| TutorProperties.WorkerCallsHappenWhileBusy | script.js:168-179 | every step that calls the worker leaves the busy flag set and a continuation waiting |
| TutorProperties.RoleSetOnlyByRoleSetReply | script.js:176-222 | role and phase 'question' are set exactly on a 'roleSet' reply, which alone asks for the first question; counters, level and question are untouched |
| TutorProperties.AnswerAlphabetChecked | script.js:225-239 | in phase 'question' an idle non-blank input is sent exactly when it trims to a-d or A-D, and is sent upper-cased; any other input is rejected with nothing changed |
| TutorProperties.EvaluationCopiesWorkerCounters | script.js:241-250 | an 'evaluation' reply sets exactly the three counters and the level to the worker's values, keeps role and phase, stays busy, and is saved |
| TutorProperties.ExplanationRequestedIff | script.js:252-311 | after an evaluation an explanation is asked for exactly when the level changed or the count is a multiple of 5, and otherwise the next question is |
| TutorProperties.QuestionReplacedOnlyByQuestionReply | script.js:190-338 | `currentQuestion` changes only on a 'question' reply to a question call, and then to that reply's text, options and answer |
| TutorProperties.SubmissionKeepsQuestion | script.js:156-239 | submissions and clicks never replace `currentQuestion` |
| TutorProperties.FailureKeepsProgress | script.js:344-348 | a failed call clears the busy flag and keeps `userState`, the question and the saved entry |
| TutorProperties.CountersOnlyFromEvaluation | script.js:244-247 | counters and level change only on an 'evaluation' reply to an answer |
| TutorProperties.BootValid | script.js:143-152 | a page started from an entry the controller saved is valid |
| TutorProperties.ApplyKeepsValid | script.js:156-350 | every event keeps the invariant: the role is known exactly in phase 'question', saved copies are settled, and a call is outstanding only while busy and in its own phase |
| TutorProperties.RunKeepsValid | script.js:156-350 | every run of events keeps that invariant |
| TutorProperties.RoleFixedOnceSet | script.js:182-183 | once the role is set, no run of events changes it or leaves phase 'question' |
| TutorProperties.ReloadRestoresSaved | script.js:131-141 | reloading restores the saved `userState` exactly |
| TutorProperties.SaveReloadRoundTrip | script.js:122-141 | saving and then reloading gives back the `userState` of any state with a role |
| TutorProperties.ScenarioRoleAccepted | script.js:176-192 | a fresh page given any non-blank role text and a 'roleSet' reply is in phase 'question' with the trimmed text as role, zero counters and level 'BÁSICO', has saved that state, and waits for the first question |
| TutorProperties.ScenarioInvalidLetter | script.js:226-235 | "E" in phase 'question' is rejected with nothing changed |
| TutorSession.Session.constructor | script.js:143-152 | the new page's fields are the state `Boot` gives for the stored entry, valid when the entry is |
| TutorSession.Session.SaveProgress | script.js:122-129 | the entry holds a copy of `userState` |
| TutorSession.Session.LoadProgress | script.js:131-141 | an entry, when there is one, replaces `userState` |
| TutorSession.Session.Submit | script.js:156-239 | new fields and effect are those of the submission step; ignored exactly when blank or busy; a sent request carries the current `userState` with the flag set; otherwise nothing changes |
| TutorSession.Session.SelectOption | script.js:79-90 | new fields and effect are those of the click step; nothing changes while busy |
| TutorSession.Session.OnRoleReply | script.js:179-222 | a 'roleSet' reply stores the role, moves to phase 'question', saves and asks for a question; any other type changes no user state and schedules nothing |
| TutorSession.Session.OnAnswerReply | script.js:239-342 | an 'evaluation' copies the worker's counters and level and asks for an explanation exactly when one is due; any other type changes nothing and schedules nothing |
| TutorSession.Session.OnExplanationReply | script.js:256-304 | whatever the reply, the next question is asked for |
| TutorSession.Session.OnQuestionReply | script.js:190-219 | a 'question' reply becomes `currentQuestion`; the busy flag is cleared whatever the type |
| TutorSession.Session.OnFailure | script.js:344-348 | the busy flag is cleared and no call is waiting; nothing else changes |
| TutorSession.Session.Complete | script.js:174-349 | the ending of the outstanding call goes to the continuation waiting for it |
| TutorFixed.UnexpectedReplyLocks | script.js:174-349 | as written, an unexpected reply type to the role or to an answer leaves the flag set with no call outstanding |
| TutorFixed.LockedForever | script.js:156-166 | as written, a locked controller ignores every later event |
| TutorFixed.RoleReplyOfOtherTypeLocksPage | script.js:176-222 | as written, a fresh page given any non-blank role text answered with a reply whose type is none of the four the handler tests for is locked: every later event is ignored, the submission "A" included |
| TutorFixed.RoleReplyFixed | script.js:181-222 | corrected: a 'roleSet' reply is handled as written; any other type schedules no call, clears the busy flag, drops the continuation and keeps everything else (user state, question, entry) |
| TutorFixed.AnswerReplyFixed | script.js:241-342 | corrected: an 'evaluation' reply is handled as written; any other type schedules no call, clears the busy flag, drops the continuation and keeps everything else (user state, question, entry) |
| TutorFixed.FixedReplyLetsLearnerSubmit | script.js:156-166 | corrected: after a reply of an unexpected type to the role text or to an answer, a non-blank submission is no longer ignored |
| TutorFixed.FixedAgreesOnExpectedReplies | script.js:174-349 | the correction changes only the two unexpected-type paths |
| TutorFixed.RunFixedKeepsConsistent | script.js:156-350 | the corrected controller stays valid and is busy exactly while a call is outstanding |
| TutorFixed.FixedNeverLocks | script.js:156-350 | corrected: no run of events from a page start locks the controller, and a non-blank submission with no call outstanding is never ignored |

## Left out

- Rendering: `addMessage` (script.js:27-77) and every message shown. This includes the bold, italic and line-break formatting, the option buttons and the progress badge. Only the click on an option button is modelled (as `SelectOption`).
- Transport: `callWorker` (script.js:92-120) with `fetch`, the HTTP status check and the JSON body. A call is modelled as a `Request` value holding the message, `userState` and `currentQuestion`. Its ending is an `Outcome`: a parsed `Reply`, or `Failed` for any throw.
- Timers and asynchrony: the `setTimeout` delays (script.js:190, 256, 267, 309) and the `await`s. Each continuation is one method call. The busy flag stays set through every delay, so no input can come in between.
- The submit button's `disabled` property, which always mirrors the busy flag, and the contents of the input box.
- Logging with `console.log` (script.js:23-25).
- Storage errors: `setItem` is taken to succeed. A missing or unreadable entry is `None`. Serialising to JSON and back is taken to give back the same record.
- Malformed replies: a reply missing a field the handler reads (such as `message`, `feedback` or `question`) makes `addMessage` or `substring` throw after some state has been written. The model assumes every field is present.
- Upper: only ASCII letters are upper-cased. In phase 'question' the outcome is the same as with full Unicode case mapping, since only `a`-`d` upper-case to `A`-`D`. A role text is never upper-cased: option buttons are drawn only with a question (script.js:41-57, 203-210), so a click cannot happen in phase 'role'.
- Counters are integers. Non-integer JSON numbers from the worker are not modelled.
- A stored `phase` other than 'role' or 'question' (an entry edited by hand) is not modelled: `Phase` has only the two values.
- Level progression, question choice and tracking which questions failed: the worker at `WORKER_URL` (script.js:2) does these, and that code is not part of this model.
- The `feedback` field of an evaluation and the `content` of an explanation are only displayed, and `isCorrect` is only logged (script.js:242), so no contract mentions them.

## Findings

| source | as written | input that shows it | evidently intended | confidence | as-written member | corrected member |
|---|---|---|---|---|---|---|
| script.js:181-222 | in phase 'role', a reply whose type is not 'roleSet' leaves the `try` block without clearing `isRequestInProgress`; every later submission and click is then ignored until the page is reloaded | fresh page, any non-blank role such as "comercial", worker replies `{type: "error"}` | the busy flag is cleared so the learner can submit again | high, not executed | TutorFixed.RoleReplyOfOtherTypeLocksPage | TutorFixed.RoleReplyFixed |
| script.js:241-342 | in phase 'question', a reply whose type is not 'evaluation' leaves the busy flag set in the same way | phase 'question', answer "A", worker replies `{type: "question"}` | the busy flag is cleared so the answer can be given again | high, not executed | TutorFixed.UnexpectedReplyLocks | TutorFixed.AnswerReplyFixed |
