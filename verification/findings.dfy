/** A reply whose `type` the handler does not expect leaves the busy flag set
    with nothing waiting to clear it: in phase 'role' any type but 'roleSet',
    in phase 'question' any type but 'evaluation'. Control leaves the `try`
    block without reaching a `catch` or a `finally`. From then on every
    submission and every click is dropped until the page is reloaded. This
    module shows that lock on the handlers as written, then gives corrected
    handlers that clear the flag on those paths and proves that the corrected
    controller keeps "busy exactly while a call is outstanding". */
module TutorFixed {
  import opened TextInput
  import opened TutorState
  import TutorProperties

  /** Busy, with no call outstanding that could ever clear the flag. */
  predicate Locked(m: Machine) {
    m.busy && m.pending == Idle
  }

  /** As written: a reply of an unexpected type to the role text or to an
      answer locks the controller. */
  lemma UnexpectedReplyLocks(m: Machine, reply: Reply)
    requires Valid(m)
    requires (m.pending.RoleCall? && !reply.RoleSet?) || (m.pending == AnswerCall && !reply.Evaluation?)
    ensures Locked(Deliver(m, Received(reply)).next)
    ensures Deliver(m, Received(reply)).call == None
  {
  }

  /** As written: a locked controller ignores every later event. */
  lemma {:induction false} LockedForever(m: Machine, es: seq<Event>)
    requires Locked(m)
    ensures Run(m, es) == m
    decreases |es|
  {
    if es != [] {
      assert Apply(m, es[0]) == m;
      LockedForever(m, es[1..]);
    }
  }

  /** As written, from a fresh page: any non-blank role text (say
      "comercial") answered with a reply of another type (say "error") leaves
      every later submission ignored. */
  lemma RoleReplyOfOtherTypeLocksPage(role: string, kind: string, later: seq<Event>)
    requires !AllSpace(role)
    requires kind !in {"roleSet", "evaluation", "question", "explanation"}
    ensures var m := Run(Boot(None), [Typed(role), Completed(Received(OtherReply(kind)))]);
      && Locked(m)
      && Run(m, later) == m
      && SubmitStep(m, "A").effect == Ignored
  {
    var e := Completed(Received(OtherReply(kind)));
    TutorProperties.RoleTextCaptured(Boot(None), role);
    TutorProperties.RunPair(Boot(None), Typed(role), e);
    var m2 := Apply(Apply(Boot(None), Typed(role)), e);
    LockedForever(m2, later);
    TutorProperties.IgnoredIffBlankOrBusy(m2, "A");
  }

  /** The reply to the role text, corrected: any type other than 'roleSet'
      also clears the busy flag. */
  function RoleReplyFixed(m: Machine, reply: Reply): (h: Handled)
    requires m.pending.RoleCall?
    ensures h.call.None? ==> !h.next.busy && h.next.pending == Idle
    ensures reply.RoleSet? ==> h == RoleReplyStep(m, reply)
    ensures !reply.RoleSet? ==> h.call.None? && h.next == m.(busy := false, pending := Idle)
  {
    if reply.RoleSet? then RoleReplyStep(m, reply)
    else Handled(m.(busy := false, pending := Idle), None)
  }

  /** The reply to an answer, corrected: any type other than 'evaluation'
      also clears the busy flag. */
  function AnswerReplyFixed(m: Machine, reply: Reply): (h: Handled)
    requires m.pending == AnswerCall
    ensures h.call.None? ==> !h.next.busy && h.next.pending == Idle
    ensures reply.Evaluation? ==> h == AnswerReplyStep(m, reply)
    ensures !reply.Evaluation? ==> h.call.None? && h.next == m.(busy := false, pending := Idle)
  {
    if reply.Evaluation? then AnswerReplyStep(m, reply)
    else Handled(m.(busy := false, pending := Idle), None)
  }

  /** `Deliver` with the two corrected handlers. */
  function DeliverFixed(m: Machine, o: Outcome): Handled
    requires m.pending != Idle
  {
    if o.Failed? then Handled(FailureStep(m), None)
    else match m.pending
      case RoleCall(_) => RoleReplyFixed(m, o.reply)
      case AnswerCall => AnswerReplyFixed(m, o.reply)
      case ExplanationCall => ExplanationReplyStep(m, o.reply)
      case QuestionCall => QuestionReplyStep(m, o.reply)
  }

  function ApplyFixed(m: Machine, e: Event): Machine {
    match e
    case Typed(raw) => SubmitStep(m, raw).next
    case Clicked(option) => SelectOptionStep(m, option).next
    case Completed(o) => if m.pending == Idle then m else DeliverFixed(m, o).next
  }

  function RunFixed(m: Machine, es: seq<Event>): Machine
    decreases |es|
  {
    if es == [] then m else RunFixed(ApplyFixed(m, es[0]), es[1..])
  }

  /** The corrected controller's invariant: valid, and busy exactly while a
      worker call is outstanding. */
  predicate Consistent(m: Machine) {
    Valid(m) && (m.busy <==> m.pending != Idle)
  }

  /** Corrected: after a reply of an unexpected type to the role text or to
      an answer, the learner can submit again, since a non-blank submission is
      no longer ignored. */
  lemma FixedReplyLetsLearnerSubmit(m: Machine, reply: Reply, raw: string)
    requires (m.pending.RoleCall? && !reply.RoleSet?) || (m.pending == AnswerCall && !reply.Evaluation?)
    requires !AllSpace(raw)
    ensures SubmitStep(DeliverFixed(m, Received(reply)).next, raw).effect != Ignored
  {
  }

  /** The correction changes only the two unexpected-type paths: on every
      other outcome it agrees with the handler as written. */
  lemma FixedAgreesOnExpectedReplies(m: Machine, o: Outcome)
    requires m.pending != Idle
    requires !(o.Received? && ((m.pending.RoleCall? && !o.reply.RoleSet?) ||
                               (m.pending == AnswerCall && !o.reply.Evaluation?)))
    ensures DeliverFixed(m, o) == Deliver(m, o)
  {
  }

  /** A submission keeps the corrected controller consistent. */
  lemma SubmitKeepsConsistent(m: Machine, raw: string)
    requires Consistent(m)
    ensures Consistent(SubmitStep(m, raw).next)
  {
  }

  lemma ApplyFixedKeepsConsistent(m: Machine, e: Event)
    requires Consistent(m)
    ensures Consistent(ApplyFixed(m, e))
  {
    match e
    case Typed(raw) =>
      SubmitKeepsConsistent(m, raw);
    case Clicked(option) =>
      if !m.busy { SubmitKeepsConsistent(m, Upper(option)); }
    case Completed(o) =>
  }

  /** Every run of the corrected controller keeps it consistent. */
  lemma {:induction false} RunFixedKeepsConsistent(m: Machine, es: seq<Event>)
    requires Consistent(m)
    ensures Consistent(RunFixed(m, es))
    decreases |es|
  {
    if es != [] {
      ApplyFixedKeepsConsistent(m, es[0]);
      RunFixedKeepsConsistent(ApplyFixed(m, es[0]), es[1..]);
    }
  }

  /** Corrected: from any page start, no run of events ever locks the
      controller, and whenever no call is outstanding a non-blank submission
      is taken up (sent or answered with the A-D prompt). */
  lemma FixedNeverLocks(stored: Option<UserState>, es: seq<Event>, raw: string)
    requires ValidStored(stored)
    ensures !Locked(RunFixed(Boot(stored), es))
    ensures var m := RunFixed(Boot(stored), es);
      m.pending == Idle && !AllSpace(raw) ==> SubmitStep(m, raw).effect != Ignored
  {
    RunFixedKeepsConsistent(Boot(stored), es);
  }
}
