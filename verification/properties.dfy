/** What the submit handler guarantees, stated over the step functions of
    TutorState. */
module TutorProperties {
  import opened TextInput
  import opened TutorState

  /** A submission is dropped, with nothing changed and no worker call, exactly
      when it is blank after trimming or a request is in progress. */
  lemma IgnoredIffBlankOrBusy(m: Machine, raw: string)
    ensures SubmitStep(m, raw).effect == Ignored <==> (AllSpace(raw) || m.busy)
    ensures SubmitStep(m, raw).effect == Ignored ==> SubmitStep(m, raw).next == m
  {
  }

  /** A click on an option is ignored while busy; otherwise it is the same as
      submitting the upper-cased label. */
  lemma ClickSubmitsUpperCasedLabel(m: Machine, option: string)
    ensures m.busy ==> SelectOptionStep(m, option) == Submitted(m, Ignored)
    ensures SelectOptionStep(m, option) == SubmitStep(m, Upper(option))
  {
  }

  /** Every step that calls the worker leaves the busy flag set and a
      continuation waiting for the reply. */
  lemma WorkerCallsHappenWhileBusy(m: Machine, raw: string, o: Outcome)
    requires Valid(m)
    ensures SubmitStep(m, raw).effect.Sent? ==>
      SubmitStep(m, raw).next.busy && SubmitStep(m, raw).next.pending != Idle
    ensures m.pending != Idle && Deliver(m, o).call.Some? ==>
      Deliver(m, o).next.busy && Deliver(m, o).next.pending != Idle
  {
  }

  /** In phase 'role' the role is stored and the phase becomes 'question'
      exactly on a 'roleSet' reply; the counters, the level and the current
      question are never touched. */
  lemma RoleSetOnlyByRoleSetReply(m: Machine, reply: Reply)
    requires Valid(m) && m.pending.RoleCall?
    ensures var n := RoleReplyStep(m, reply).next;
      && ((n.user.role == Some(m.pending.role) && n.user.phase == QuestionPhase) <==> reply.RoleSet?)
      && n.user.questionsAsked == m.user.questionsAsked
      && n.user.correctAnswers == m.user.correctAnswers
      && n.user.incorrectAnswers == m.user.incorrectAnswers
      && n.user.currentLevel == m.user.currentLevel
      && n.current == m.current
    ensures reply.RoleSet? <==> RoleReplyStep(m, reply).call == Some(Request(GenerateQuestion, RoleReplyStep(m, reply).next.user, m.current))
  {
  }

  /** In phase 'role' an idle, non-blank submission is sent as its trimmed
      text, the continuation keeps that text as the role to store, and
      `userState` is untouched until the worker replies. */
  lemma RoleTextCaptured(m: Machine, raw: string)
    requires m.user.phase == RolePhase && !m.busy && !AllSpace(raw)
    ensures var s := SubmitStep(m, raw);
      && s.effect.Sent?
      && s.effect.request.message == Trim(raw)
      && s.next.pending == RoleCall(Trim(raw))
      && s.next.user == m.user
  {
  }

  /** In phase 'question' an idle, non-blank submission is sent exactly when
      its trimmed text is one of a, b, c, d, A, B, C, D, and then upper-cased;
      any other text is rejected with nothing changed and no worker call. */
  lemma AnswerAlphabetChecked(m: Machine, raw: string)
    requires m.user.phase == QuestionPhase && !m.busy && !AllSpace(raw)
    ensures var s := SubmitStep(m, raw);
      && (s.effect.Sent? <==> Trim(raw) in {"A", "B", "C", "D", "a", "b", "c", "d"})
      && (!s.effect.Sent? ==> s.effect == Rejected && s.next == m)
      && (s.effect.Sent? ==>
            && s.effect.request.message in {"A", "B", "C", "D"}
            && s.effect.request.message == Upper(Trim(raw))
            && s.next.pending == AnswerCall)
  {
    AcceptedAnswers(Trim(raw));
  }

  /** An 'evaluation' reply overwrites exactly the three counters and the
      level with the worker's values, keeps role and phase, and is saved. */
  lemma EvaluationCopiesWorkerCounters(m: Machine, reply: Reply)
    requires Valid(m) && m.pending == AnswerCall && reply.Evaluation?
    ensures var n := AnswerReplyStep(m, reply).next;
      && n.user.questionsAsked == reply.questionsAsked
      && n.user.correctAnswers == reply.correctAnswers
      && n.user.incorrectAnswers == reply.incorrectAnswers
      && n.user.currentLevel == reply.currentLevel
      && n.user.role == m.user.role && n.user.phase == m.user.phase
      && n.current == m.current && n.busy
      && n.saved == Some(n.user)
  {
  }

  /** After an evaluation an explanation is asked for exactly when the level
      changed or the reported count is a multiple of five; otherwise the next
      question is asked for directly. */
  lemma ExplanationRequestedIff(m: Machine, reply: Reply)
    requires m.pending == AnswerCall && reply.Evaluation?
    ensures var h := AnswerReplyStep(m, reply);
      && h.call.Some?
      && (h.call.value.message == GenerateExplanation <==>
            reply.levelChanged || reply.questionsAsked % 5 == 0)
      && (h.call.value.message != GenerateExplanation ==> h.call.value.message == GenerateQuestion)
      && (h.next.pending == ExplanationCall <==> h.call.value.message == GenerateExplanation)
  {
  }

  /** `currentQuestion` changes only on a 'question' reply to a question
      call, and then to that reply's text, options and correct answer. */
  lemma QuestionReplacedOnlyByQuestionReply(m: Machine, o: Outcome)
    requires m.pending != Idle
    ensures var c := Deliver(m, o).next.current;
      c != m.current ==>
        && m.pending == QuestionCall && o.Received? && o.reply.QuestionReply?
        && c == Some(Question(o.reply.question, o.reply.options, o.reply.correctAnswer))
    ensures m.pending == QuestionCall && o.Received? && o.reply.QuestionReply? ==>
      Deliver(m, o).next.current == Some(Question(o.reply.question, o.reply.options, o.reply.correctAnswer))
  {
  }

  /** Submissions and clicks never replace the current question. */
  lemma SubmissionKeepsQuestion(m: Machine, raw: string, option: string)
    ensures SubmitStep(m, raw).next.current == m.current
    ensures SelectOptionStep(m, option).next.current == m.current
  {
  }

  /** A failed call clears the busy flag and rolls nothing back: the user
      state, the question and the saved entry stay as they were. */
  lemma FailureKeepsProgress(m: Machine)
    requires m.pending != Idle
    ensures var h := Deliver(m, Failed);
      && !h.next.busy && h.next.pending == Idle && h.call == None
      && h.next.user == m.user && h.next.current == m.current && h.next.saved == m.saved
  {
  }

  /** The counters and the level change only by an 'evaluation' reply to an
      answer: the client never computes them. */
  lemma CountersOnlyFromEvaluation(m: Machine, e: Event)
    ensures var u := Apply(m, e).user;
      (u.questionsAsked, u.correctAnswers, u.incorrectAnswers, u.currentLevel)
        != (m.user.questionsAsked, m.user.correctAnswers, m.user.incorrectAnswers, m.user.currentLevel)
      ==> m.pending == AnswerCall && e.Completed? && e.outcome.Received? && e.outcome.reply.Evaluation?
  {
    match e
    case Typed(raw) =>
    case Clicked(option) =>
    case Completed(o) =>
  }

  /** A page starts in a valid state from any entry the controller saves. */
  lemma BootValid(stored: Option<UserState>)
    requires ValidStored(stored)
    ensures Valid(Boot(stored))
  {
  }

  /** Every event keeps the controller valid. */
  lemma ApplyKeepsValid(m: Machine, e: Event)
    requires Valid(m)
    ensures Valid(Apply(m, e))
  {
    match e
    case Typed(raw) =>
    case Clicked(option) =>
    case Completed(o) =>
  }

  /** Any run of events keeps the controller valid. */
  lemma {:induction false} RunKeepsValid(m: Machine, es: seq<Event>)
    requires Valid(m)
    ensures Valid(Run(m, es))
    decreases |es|
  {
    if es != [] {
      ApplyKeepsValid(m, es[0]);
      RunKeepsValid(Apply(m, es[0]), es[1..]);
    }
  }

  /** Once the role is set it never changes and the phase stays 'question'. */
  lemma {:induction false} RoleFixedOnceSet(m: Machine, es: seq<Event>)
    requires Valid(m) && m.user.phase == QuestionPhase
    ensures Run(m, es).user.role == m.user.role
    ensures Run(m, es).user.phase == QuestionPhase
    decreases |es|
  {
    if es != [] {
      ApplyKeepsValid(m, es[0]);
      RoleFixedOnceSet(Apply(m, es[0]), es[1..]);
    }
  }

  /** Reloading the page restores the saved `userState` exactly. */
  lemma ReloadRestoresSaved(m: Machine)
    requires Valid(m) && m.saved.Some?
    ensures Boot(m.saved).user == m.saved.value
    ensures Valid(Boot(m.saved))
  {
  }

  /** Saving and then reloading gives back the `userState` of any state with
      a role. */
  lemma SaveReloadRoundTrip(m: Machine)
    requires Valid(m) && m.user.phase == QuestionPhase
    ensures Boot(Save(m).saved).user == m.user
  {
  }

  /** A fresh page, any non-blank role text accepted by the worker: phase
      'question', the trimmed text as the role, counters at zero, level
      'BÁSICO', that state saved, and the first question asked for. */
  lemma ScenarioRoleAccepted(role: string, message: string)
    requires !AllSpace(role)
    ensures var m := Run(Boot(None), [Typed(role), Completed(Received(RoleSet(message)))]);
      && m.user == UserState(0, 0, 0, "BÁSICO", QuestionPhase, Some(Trim(role)))
      && m.saved == Some(m.user)
      && m.busy && m.pending == QuestionCall
  {
    RoleTextCaptured(Boot(None), role);
    RunPair(Boot(None), Typed(role), Completed(Received(RoleSet(message))));
  }

  /** Two events in a row. */
  lemma RunPair(m: Machine, first: Event, second: Event)
    ensures Run(m, [first, second]) == Apply(Apply(m, first), second)
  {
    assert [first, second][1..] == [second];
    assert Run(Apply(m, first), [second]) == Run(Apply(Apply(m, first), second), []);
  }

  /** In phase 'question', "E" is rejected with nothing changed. */
  lemma ScenarioInvalidLetter(m: Machine)
    requires m.user.phase == QuestionPhase && !m.busy
    ensures SubmitStep(m, "E") == Submitted(m, Rejected)
  {
    assert Trim("E") == "E";
    assert Upper("E") == "E";
  }
}
