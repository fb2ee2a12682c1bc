/** The page's globals as one object whose handlers update them in place:
    the submit handler and each continuation it schedules is a method, proved
    to leave the object in the state the matching step function of TutorState
    describes. */
module TutorSession {
  import opened TextInput
  import opened TutorState

  class Session {
    var userState: UserState
    var currentQuestion: Option<Question>
    var isRequestInProgress: bool
    /** The continuation waiting for the worker's reply. */
    var pending: Pending
    /** The localStorage entry 'tutorPRL_state'. */
    var stored: Option<UserState>

    /** The object's fields as one value. */
    function State(): Machine
      reads this
    {
      Machine(userState, currentQuestion, isRequestInProgress, pending, stored)
    }

    /** Page start with `saved` in localStorage: load it, and ask for a role
        when none is known. */
    constructor (saved: Option<UserState>)
      ensures State() == Boot(saved)
      ensures ValidStored(saved) ==> Valid(State())
    {
      userState := InitialUser;
      currentQuestion := None;
      isRequestInProgress := false;
      pending := Idle;
      stored := saved;
      new;
      LoadProgress();
      if RoleMissing(userState.role) {
        userState := userState.(phase := RolePhase);
      }
    }

    /** `saveProgress`. */
    method SaveProgress()
      modifies this`stored
      ensures stored == Some(userState)
    {
      stored := Some(userState);
    }

    /** `loadProgress`: an entry, when present, replaces `userState`. */
    method LoadProgress()
      modifies this`userState
      ensures stored.Some? ==> userState == stored.value
      ensures stored.None? ==> userState == old(userState)
    {
      if stored.Some? {
        userState := stored.value;
      }
    }

    /** The form's submit handler up to its first worker call. */
    method Submit(raw: string) returns (effect: SubmitEffect)
      modifies this
      ensures Submitted(State(), effect) == SubmitStep(old(State()), raw)
      ensures effect == Ignored <==> AllSpace(raw) || old(isRequestInProgress)
      ensures effect.Sent? ==> isRequestInProgress && effect.request.user == userState
      ensures !effect.Sent? ==> State() == old(State())
    {
      var text := Trim(raw);
      if text == "" {
        return Ignored;
      }
      if isRequestInProgress {
        return Ignored;
      }
      isRequestInProgress := true;
      if userState.phase == RolePhase {
        pending := RoleCall(text);
        return Sent(Request(text, userState, currentQuestion));
      }
      text := Upper(text);
      if !IsAnswerLabel(text) {
        isRequestInProgress := false;
        return Rejected;
      }
      pending := AnswerCall;
      effect := Sent(Request(text, userState, currentQuestion));
    }

    /** A click on an option button. */
    method SelectOption(option: string) returns (effect: SubmitEffect)
      modifies this
      ensures Submitted(State(), effect) == SelectOptionStep(old(State()), option)
      ensures old(isRequestInProgress) ==> effect == Ignored && State() == old(State())
    {
      if isRequestInProgress {
        return Ignored;
      }
      effect := Submit(Upper(option));
    }

    /** The reply to the role text. */
    method OnRoleReply(reply: Reply) returns (call: Option<Request>)
      requires pending.RoleCall?
      modifies this
      ensures Handled(State(), call) == RoleReplyStep(old(State()), reply)
      ensures reply.RoleSet? ==>
        userState == old(userState).(phase := QuestionPhase, role := Some(old(pending).role)) &&
        stored == Some(userState) && call.Some?
      ensures !reply.RoleSet? ==> userState == old(userState) && call.None?
      ensures isRequestInProgress == old(isRequestInProgress)
    {
      if reply.RoleSet? {
        userState := userState.(role := Some(pending.role));
        userState := userState.(phase := QuestionPhase);
        SaveProgress();
        pending := QuestionCall;
        call := Some(Request(GenerateQuestion, userState, currentQuestion));
      } else {
        pending := Idle;
        call := None;
      }
    }

    /** The reply to an answer; the call it schedules says whether an
        explanation comes next. */
    method OnAnswerReply(reply: Reply) returns (call: Option<Request>)
      requires pending == AnswerCall
      modifies this
      ensures Handled(State(), call) == AnswerReplyStep(old(State()), reply)
      ensures reply.Evaluation? ==>
        && call.Some?
        && (call.value.message == GenerateExplanation <==> ExplanationDue(reply.levelChanged, reply.questionsAsked))
        && userState == old(userState).(questionsAsked := reply.questionsAsked,
             correctAnswers := reply.correctAnswers, incorrectAnswers := reply.incorrectAnswers,
             currentLevel := reply.currentLevel)
      ensures !reply.Evaluation? ==> call.None? && userState == old(userState)
      ensures currentQuestion == old(currentQuestion) && isRequestInProgress == old(isRequestInProgress)
    {
      if reply.Evaluation? {
        userState := userState.(questionsAsked := reply.questionsAsked);
        userState := userState.(correctAnswers := reply.correctAnswers);
        userState := userState.(incorrectAnswers := reply.incorrectAnswers);
        userState := userState.(currentLevel := reply.currentLevel);
        SaveProgress();
        if ExplanationDue(reply.levelChanged, reply.questionsAsked) {
          pending := ExplanationCall;
          call := Some(Request(GenerateExplanation, userState, currentQuestion));
        } else {
          pending := QuestionCall;
          call := Some(Request(GenerateQuestion, userState, currentQuestion));
        }
      } else {
        pending := Idle;
        call := None;
      }
    }

    /** The reply to 'GENERAR_EXPLICACION'. */
    method OnExplanationReply(reply: Reply) returns (call: Option<Request>)
      requires pending == ExplanationCall
      modifies this`pending
      ensures Handled(State(), call) == ExplanationReplyStep(old(State()), reply)
      ensures call == Some(Request(GenerateQuestion, userState, currentQuestion))
    {
      pending := QuestionCall;
      call := Some(Request(GenerateQuestion, userState, currentQuestion));
    }

    /** The reply to 'GENERAR_PREGUNTA'. */
    method OnQuestionReply(reply: Reply)
      requires pending == QuestionCall
      modifies this`currentQuestion, this`isRequestInProgress, this`pending
      ensures Handled(State(), None) == QuestionReplyStep(old(State()), reply)
      ensures !isRequestInProgress
      ensures reply.QuestionReply? ==>
        currentQuestion == Some(Question(reply.question, reply.options, reply.correctAnswer))
      ensures !reply.QuestionReply? ==> currentQuestion == old(currentQuestion)
    {
      if reply.QuestionReply? {
        currentQuestion := Some(Question(reply.question, reply.options, reply.correctAnswer));
      }
      isRequestInProgress := false;
      pending := Idle;
    }

    /** A worker call that throws, whichever continuation was waiting. */
    method OnFailure()
      requires pending != Idle
      modifies this`isRequestInProgress, this`pending
      ensures State() == FailureStep(old(State()))
      ensures !isRequestInProgress && pending == Idle
    {
      isRequestInProgress := false;
      pending := Idle;
    }

    /** The outstanding worker call ends with `o`. */
    method Complete(o: Outcome) returns (call: Option<Request>)
      requires pending != Idle
      modifies this
      ensures Handled(State(), call) == Deliver(old(State()), o)
    {
      if o.Failed? {
        OnFailure();
        return None;
      }
      match pending
      case RoleCall(_) =>
        call := OnRoleReply(o.reply);
      case AnswerCall =>
        call := OnAnswerReply(o.reply);
      case ExplanationCall =>
        call := OnExplanationReply(o.reply);
      case QuestionCall =>
        OnQuestionReply(o.reply);
        call := None;
    }
  }
}
