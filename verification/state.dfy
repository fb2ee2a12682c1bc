/** The client-side session controller of the adaptive quiz tutor, as values:
    the globals `userState`, `currentQuestion` and `isRequestInProgress`, the
    localStorage slot, and one step function per piece of the submit handler.
    The worker's replies are inputs; its decisions (levels, which question
    comes next) are not made here. */
module TutorState {
  import opened TextInput

  datatype Option<T> = None | Some(value: T)

  /** `userState.phase`: 'role' until the worker accepts a role, then 'question'. */
  datatype Phase = RolePhase | QuestionPhase

  /** The global `userState`. The counters and the level are whatever the
      worker last reported; the client never computes them. */
  datatype UserState = UserState(
    questionsAsked: int,
    correctAnswers: int,
    incorrectAnswers: int,
    currentLevel: string,
    phase: Phase,
    role: Option<string>)

  /** `userState` as the page declares it. */
  const InitialUser := UserState(0, 0, 0, "BÁSICO", RolePhase, None)

  /** `currentQuestion`: the question the learner is answering. */
  datatype Question = Question(text: string, options: map<string, string>, correctAnswer: string)

  /** A reply of the worker, by its `type` field. `OtherReply` is any reply
      whose type is none of the four the handler tests for. */
  datatype Reply =
    | RoleSet(message: string)
    | Evaluation(questionsAsked: int, correctAnswers: int, incorrectAnswers: int,
                 currentLevel: string, levelChanged: bool, isCorrect: bool, feedback: string)
    | QuestionReply(question: string, options: map<string, string>, correctAnswer: string)
    | Explanation(content: string)
    | OtherReply(kind: string)

  /** How a worker call ends: a parsed reply, or a thrown error (network
      failure, an HTTP status that is not ok, a body that is not JSON). */
  datatype Outcome = Received(reply: Reply) | Failed

  /** The payload of one worker call: the message and the globals as they are
      when the call is made. */
  datatype Request = Request(message: string, user: UserState, question: Option<Question>)

  const GenerateQuestion := "GENERAR_PREGUNTA"
  const GenerateExplanation := "GENERAR_EXPLICACION"

  /** Where the handler is suspended, waiting for the worker: on the role
      text it captured, on an answer, on an explanation, or on a question (the
      first one or a following one: their continuations behave alike). */
  datatype Pending = Idle | RoleCall(role: string) | AnswerCall | ExplanationCall | QuestionCall

  /** Everything the controller keeps: the three globals, the continuation
      waiting for a reply, and the localStorage entry 'tutorPRL_state'. */
  datatype Machine = Machine(
    user: UserState,
    current: Option<Question>,
    busy: bool,
    pending: Pending,
    saved: Option<UserState>)

  /** What a submission leads to: nothing at all, the "answer with A, B, C or
      D" prompt, or a worker call. */
  datatype SubmitEffect = Ignored | Rejected | Sent(request: Request)

  datatype Submitted = Submitted(next: Machine, effect: SubmitEffect)

  /** The state after a reply and the worker call it schedules, if any. */
  datatype Handled = Handled(next: Machine, call: Option<Request>)

  /** JavaScript's `!userState.role`: null or the empty string. */
  predicate RoleMissing(role: Option<string>) {
    role.None? || role.value == ""
  }

  /** `saveProgress`: the entry now holds a copy of `userState`. */
  function Save(m: Machine): (r: Machine)
    ensures r.saved == Some(m.user)
    ensures r.(saved := m.saved) == m
  {
    m.(saved := Some(m.user))
  }

  /** Page start: `loadProgress` replaces `userState` by the stored copy when
      there is one, then a missing role puts the phase back to 'role'. */
  function Boot(stored: Option<UserState>): (m: Machine)
    ensures !m.busy && m.pending == Idle && m.current == None && m.saved == stored
    ensures stored == None ==> m.user == InitialUser
    ensures stored.Some? && !RoleMissing(stored.value.role) ==> m.user == stored.value
    ensures stored.Some? && RoleMissing(stored.value.role) ==> m.user == stored.value.(phase := RolePhase)
    ensures RoleMissing(m.user.role) ==> m.user.phase == RolePhase
  {
    var loaded := if stored.Some? then stored.value else InitialUser;
    var user := if RoleMissing(loaded.role) then loaded.(phase := RolePhase) else loaded;
    Machine(user, None, false, Idle, stored)
  }

  /** The synchronous part of the submit handler: trim, drop a blank or busy
      submission, set the busy flag, then either send the role text or
      upper-case and check the answer before sending it. */
  function SubmitStep(m: Machine, raw: string): (r: Submitted)
    ensures !r.effect.Sent? ==> r.next == m
    ensures r.effect.Rejected? ==> m.user.phase != RolePhase
    ensures r.effect.Sent? ==>
      && r.next == m.(busy := true, pending := r.next.pending)
      && r.next.pending != Idle
      && r.effect.request.user == m.user
      && r.effect.request.question == m.current
    ensures r.effect.Sent? && m.user.phase == RolePhase ==>
      && r.effect.request.message == Trim(raw) != ""
      && r.next.pending == RoleCall(r.effect.request.message)
    ensures r.effect.Sent? && m.user.phase == QuestionPhase ==>
      && r.effect.request.message == Upper(Trim(raw))
      && IsAnswerLabel(r.effect.request.message)
      && r.next.pending == AnswerCall
  {
    var text := Trim(raw);
    if text == "" || m.busy then Submitted(m, Ignored)
    else if m.user.phase == RolePhase then
      Submitted(m.(busy := true, pending := RoleCall(text)), Sent(Request(text, m.user, m.current)))
    else
      var answer := Upper(text);
      if !IsAnswerLabel(answer) then
        // the busy flag is set and cleared again before the handler returns
        Submitted(m, Rejected)
      else
        Submitted(m.(busy := true, pending := AnswerCall), Sent(Request(answer, m.user, m.current)))
  }

  /** A click on an option button: ignored while busy, otherwise the
      upper-cased label is put in the input box and the form submitted. */
  function SelectOptionStep(m: Machine, option: string): (r: Submitted)
    ensures m.busy ==> r == Submitted(m, Ignored)
    ensures !r.effect.Sent? ==> r.next == m
    ensures r.effect.Sent? ==> forall i :: 0 <= i < |r.effect.request.message| ==>
      !('a' <= r.effect.request.message[i] <= 'z')
    ensures r.effect.Sent? && m.user.phase == QuestionPhase ==>
      r.effect.request.message in {"A", "B", "C", "D"}
  {
    if m.busy then Submitted(m, Ignored)
    else
      TrimKeepsCapitals(Upper(option));
      SubmitStep(m, Upper(option))
  }

  /** Trimming a text with no ASCII lower-case letter leaves none. */
  lemma TrimKeepsCapitals(s: string)
    requires forall i :: 0 <= i < |s| ==> !('a' <= s[i] <= 'z')
    ensures forall i :: 0 <= i < |Trim(s)| ==> !('a' <= Trim(s)[i] <= 'z')
  {
    var k := TrimCutsOnlySpace(s);
    forall i | 0 <= i < |Trim(s)| ensures !('a' <= Trim(s)[i] <= 'z') {
      assert Trim(s)[i] == s[k + i];
    }
  }

  /** The reply to the role text. Only a 'roleSet' reply stores the role,
      moves to 'question', saves and asks for the first question; any other
      type ends the handler with the busy flag still set. */
  function RoleReplyStep(m: Machine, reply: Reply): (h: Handled)
    requires m.pending.RoleCall?
    ensures h.next.current == m.current && h.next.busy == m.busy
    ensures reply.RoleSet? <==> h.call.Some?
    ensures reply.RoleSet? ==>
      && h.next.user == m.user.(role := Some(m.pending.role), phase := QuestionPhase)
      && h.next.saved == Some(h.next.user)
      && h.next.pending == QuestionCall
      && h.call.value == Request(GenerateQuestion, h.next.user, m.current)
    ensures !reply.RoleSet? ==> h.next == m.(pending := Idle)
  {
    if reply.RoleSet? then
      var user := m.user.(role := Some(m.pending.role), phase := QuestionPhase);
      Handled(Save(m.(user := user, pending := QuestionCall)),
              Some(Request(GenerateQuestion, user, m.current)))
    else
      Handled(m.(pending := Idle), None)
  }

  /** JavaScript's `%` on integers: it truncates toward zero, so the
      remainder has the sign of the dividend, is smaller than the divisor in
      size, and leaves a multiple of the divisor. */
  function JsRemainder(a: int, b: int): (r: int)
    requires b > 0
    ensures -b < r < b
    ensures a >= 0 ==> r >= 0
    ensures a < 0 ==> r <= 0
    ensures (a - r) % b == 0
  {
    if a >= 0 then
      RemainderLeavesMultiple(a, b);
      a % b
    else
      NegatedRemainderLeavesMultiple(-a, b);
      -((-a) % b)
  }

  /** Taking Dafny's remainder off leaves a multiple of the divisor. */
  lemma RemainderLeavesMultiple(n: int, b: int)
    requires b > 0
    ensures (n - n % b) % b == 0
  {
    assert n - n % b == b * (n / b);
    MultipleHasNoRemainder(b, n / b);
  }

  /** The same, for the negated dividend and remainder. */
  lemma NegatedRemainderLeavesMultiple(n: int, b: int)
    requires b > 0
    ensures (-n + n % b) % b == 0
  {
    assert -n + n % b == b * -(n / b);
    MultipleHasNoRemainder(b, -(n / b));
  }

  /** A multiple of `b` leaves no remainder. */
  lemma MultipleHasNoRemainder(b: int, q: int)
    requires b > 0
    ensures (b * q) % b == 0
  {
    var d, r := (b * q) / b, (b * q) % b;
    assert b * (q - d) == r by {
      assert b * q == b * d + r;
      assert b * (q - d) == b * q - b * d;
    }
    if q > d {
      ProductAtLeast(b, q - d);
    } else if q < d {
      ProductAtLeast(b, d - q);
    }
  }

  lemma ProductAtLeast(b: int, k: int)
    requires b > 0 && k >= 1
    ensures b * k >= b
    decreases k
  {
    if k > 1 {
      ProductAtLeast(b, k - 1);
      assert b * k == b * (k - 1) + b;
    }
  }

  /** A count is a multiple of five exactly when its JavaScript remainder by
      five is zero, negative counts included. */
  lemma JsRemainderZeroByFive(q: int)
    ensures q % 5 == 0 <==> JsRemainder(q, 5) == 0
  {
    if q < 0 {
      var p := -q;
      assert q % 5 == 0 <==> p % 5 == 0 by {
        if p % 5 == 0 { assert q == 5 * -(p / 5); }
        if q % 5 == 0 { assert p == 5 * -(q / 5); }
      }
    }
  }

  /** `result.levelChanged || result.questionsAsked % 5 === 0`: written with
      Dafny's `%`, whose remainder is never negative, and equal to the test
      with JavaScript's `%` for every count. */
  predicate ExplanationDue(levelChanged: bool, questionsAsked: int)
    ensures ExplanationDue(levelChanged, questionsAsked) <==>
      levelChanged || JsRemainder(questionsAsked, 5) == 0
  {
    JsRemainderZeroByFive(questionsAsked);
    levelChanged || questionsAsked % 5 == 0
  }

  /** The reply to an answer. An 'evaluation' copies the worker's counters and
      level, saves, and asks for an explanation or directly for the next
      question; any other type ends the handler with the busy flag still set. */
  function AnswerReplyStep(m: Machine, reply: Reply): (h: Handled)
    requires m.pending == AnswerCall
    ensures h.next.current == m.current && h.next.busy == m.busy
    ensures reply.Evaluation? <==> h.call.Some?
    ensures reply.Evaluation? ==>
      && h.next.user == m.user.(questionsAsked := reply.questionsAsked,
           correctAnswers := reply.correctAnswers, incorrectAnswers := reply.incorrectAnswers,
           currentLevel := reply.currentLevel)
      && h.next.saved == Some(h.next.user)
      && h.call.value.user == h.next.user && h.call.value.question == m.current
      && (h.call.value.message == GenerateExplanation <==> ExplanationDue(reply.levelChanged, reply.questionsAsked))
      && (h.call.value.message != GenerateExplanation ==> h.call.value.message == GenerateQuestion)
      && (h.next.pending == ExplanationCall <==> h.call.value.message == GenerateExplanation)
      && (h.next.pending == QuestionCall <==> h.call.value.message == GenerateQuestion)
    ensures !reply.Evaluation? ==> h.next == m.(pending := Idle)
  {
    match reply
    case Evaluation(asked, correct, incorrect, level, changed, _, _) =>
      var user := m.user.(questionsAsked := asked, correctAnswers := correct,
                          incorrectAnswers := incorrect, currentLevel := level);
      var explain := ExplanationDue(changed, asked);
      Handled(Save(m.(user := user, pending := if explain then ExplanationCall else QuestionCall)),
              Some(Request(if explain then GenerateExplanation else GenerateQuestion, user, m.current)))
    case _ =>
      Handled(m.(pending := Idle), None)
  }

  /** The reply to 'GENERAR_EXPLICACION': whatever its type (an explanation is
      only displayed), the next question is asked for. */
  function ExplanationReplyStep(m: Machine, reply: Reply): (h: Handled)
    requires m.pending == ExplanationCall
    ensures h.next.user == m.user && h.next.current == m.current && h.next.saved == m.saved
    ensures h.next.busy == m.busy && h.next.pending == QuestionCall
    ensures h.call == Some(Request(GenerateQuestion, m.user, m.current))
  {
    Handled(m.(pending := QuestionCall), Some(Request(GenerateQuestion, m.user, m.current)))
  }

  /** The reply to 'GENERAR_PREGUNTA': a 'question' reply becomes
      `currentQuestion`; whatever the type, the busy flag is cleared. */
  function QuestionReplyStep(m: Machine, reply: Reply): (h: Handled)
    requires m.pending == QuestionCall
    ensures !h.next.busy && h.next.pending == Idle && h.call.None?
    ensures h.next.user == m.user && h.next.saved == m.saved
    ensures reply.QuestionReply? ==>
      h.next.current == Some(Question(reply.question, reply.options, reply.correctAnswer))
    ensures !reply.QuestionReply? ==> h.next.current == m.current
  {
    var current :=
      if reply.QuestionReply? then Some(Question(reply.question, reply.options, reply.correctAnswer))
      else m.current;
    Handled(m.(current := current, busy := false, pending := Idle), None)
  }

  /** A worker call that throws: every catch clears the busy flag and nothing
      already changed is undone. */
  function FailureStep(m: Machine): (r: Machine)
    requires m.pending != Idle
    ensures !r.busy && r.pending == Idle
    ensures r.user == m.user && r.current == m.current && r.saved == m.saved
  {
    m.(busy := false, pending := Idle)
  }

  /** A worker call ends while the handler waits on it. */
  function Deliver(m: Machine, o: Outcome): (h: Handled)
    requires m.pending != Idle
    ensures h.call.Some? <==> h.next.pending != Idle
    ensures h.call.Some? ==> h.call.value.user == h.next.user && h.call.value.question == h.next.current
    ensures h.next.busy != m.busy ==> !h.next.busy && h.next.pending == Idle
    ensures h.next.user != m.user ==> o.Received? && (o.reply.RoleSet? || o.reply.Evaluation?)
    ensures h.next.current != m.current ==> o.Received? && o.reply.QuestionReply?
  {
    if o.Failed? then Handled(FailureStep(m), None)
    else match m.pending
      case RoleCall(_) => RoleReplyStep(m, o.reply)
      case AnswerCall => AnswerReplyStep(m, o.reply)
      case ExplanationCall => ExplanationReplyStep(m, o.reply)
      case QuestionCall => QuestionReplyStep(m, o.reply)
  }

  /** What can happen next: the learner types and submits, clicks an option,
      or the outstanding worker call ends. */
  datatype Event = Typed(raw: string) | Clicked(option: string) | Completed(outcome: Outcome)

  /** One event. With no call outstanding there is nothing a reply could
      reach, so `Completed` then changes nothing. */
  function Apply(m: Machine, e: Event): Machine {
    match e
    case Typed(raw) => SubmitStep(m, raw).next
    case Clicked(option) => SelectOptionStep(m, option).next
    case Completed(o) => if m.pending == Idle then m else Deliver(m, o).next
  }

  /** A sequence of events, in order. */
  function Run(m: Machine, es: seq<Event>): Machine
    decreases |es|
  {
    if es == [] then m else Run(Apply(m, es[0]), es[1..])
  }

  /** A `userState` as it is saved: role given and phase 'question'. */
  predicate Settled(u: UserState) {
    !RoleMissing(u.role) && u.phase == QuestionPhase
  }

  /** What holds in every state the controller reaches: the role is known
      exactly in phase 'question', only settled copies are saved, a call is
      outstanding only while busy, and each call belongs to its phase. */
  predicate Valid(m: Machine) {
    && (m.user.phase == RolePhase ==> m.user.role.None?)
    && (m.user.phase == QuestionPhase ==> !RoleMissing(m.user.role))
    && (m.saved.Some? ==> Settled(m.saved.value))
    && (m.pending != Idle ==> m.busy)
    && match m.pending
       case Idle => true
       case RoleCall(t) => m.user.phase == RolePhase && t != ""
       case _ => m.user.phase == QuestionPhase
  }

  /** The stored entry a page can start from: none, or a settled copy. */
  predicate ValidStored(stored: Option<UserState>) {
    stored.Some? ==> Settled(stored.value)
  }
}
