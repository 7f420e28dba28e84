/** What is booked as done was done: over whole histories, every committed slot either skipped its
    action or performed it, exactly once, as long as wallets show only effects of performed actions. */
module Evidence {
  import opened Wrappers
  import opened OutputText
  import opened World
  import opened Actions
  import opened Probe
  import opened SlotProtocol
  import opened SlotSafety

  /** What a slot reports that issued no command. */
  predicate SkipText(detail: string) {
    || detail == "noop" || detail == "transfer:skip:no_pass" || detail == "transfer:skip:no_target"
    || detail == "remint:skip:no_prev" || detail == "spend_balance:skip:low_balance"
  }

  /** A command that ran never reports a skip. */
  lemma IssuedTextIsNoSkip(env: Env, t: TickState, plan: Plan, req: Request, l: Local, raw: string)
    requires WfLocal(env, l) && plan.actor < env.agentCount && RequestInRange(env, req)
    requires Complete(env, t, plan, req, l, raw).Success?
    ensures !SkipText(Complete(env, t, plan, req, l, raw).value.1.detail)
  {
    SkipHasNoEquals(Complete(env, t, plan, req, l, raw).value.1.detail);
    match req
    case Inscribe(prev, invalid) =>
      var pass := ExtractInscriptionId(raw).value;
      MintDetailHasEquals(env, plan, prev, invalid, pass);
    case SendPass(pass, target, _) =>
      assert '=' in TransferDetail(env, plan, pass, target, ExtractTxid(raw).value);
    case FundAgent(sat) => assert '=' in FundDetail(env, plan, sat, Prefix12(raw));
    case PayMiner(_, sat) => assert '=' in PayDetail(env, plan, sat, Prefix12(raw));
  }

  lemma SkipHasNoEquals(detail: string)
    ensures SkipText(detail) ==> '=' !in detail
  {
  }

  lemma MintDetailHasEquals(env: Env, plan: Plan, prev: Option<string>, invalid: bool, pass: string)
    ensures '=' in MintDetail(env, plan, prev, invalid, pass)
  {
    var tail := ":owner=";
    assert tail[6] == '=';
  }

  predicate Backed(id: ActionId, detail: string, expectation: Option<Expectation>, performed: seq<ActionId>) {
    id in performed || (SkipText(detail) && Meaningful(expectation).None?)
  }

  ghost predicate BooksBacked(t: TickState, performed: seq<ActionId>) {
    && (forall k | 0 <= k < |t.trace| && t.trace[k].Committed? ::
          t.trace[k].id in performed || SkipText(t.trace[k].detail))
    && (forall k | 0 <= k < |t.expectations| :: t.expectations[k].id.Some? && t.expectations[k].id.value in performed)
  }

  ghost predicate ReceiptBacked(t: TickState, performed: seq<ActionId>) {
    t.receipt.Some? && t.plan.Some? ==>
      Backed(t.plan.value.id, t.receipt.value.detail, t.receipt.value.expectation, performed)
  }

  ghost predicate MemoryBacked(pc: SlotPc, t: TickState, performed: seq<ActionId>) {
    && BooksBacked(t, performed)
    && (t.plan.Some? ==>
          && (pc.Called? || pc.Filed? ==> t.plan.value.id in performed)
          && (pc.Committing? ==> Backed(t.plan.value.id, pc.outcome.detail, pc.outcome.expectation, performed)))
  }

  ghost predicate EvidenceEverywhere(s: Sys) {
    && (forall id | id in s.disk.files :: id in s.world.performed)
    && (s.disk.snapshot.Some? && s.disk.snapshot.value.InTick? ==>
          BooksBacked(s.disk.snapshot.value.t, s.world.performed) && ReceiptBacked(s.disk.snapshot.value.t, s.world.performed))
    && (s.proc.Slot? ==> MemoryBacked(s.proc.pc, s.proc.t, s.world.performed))
  }

  /** If the top of the loop finds its effect in a wallet, the action was performed. */
  ghost predicate HonestWallet(s: Sys, e: Event) {
    e.Advance? && s.proc.Slot? && s.proc.pc.Head? && s.proc.t.plan.Some? && s.proc.t.receipt.None?
    && s.proc.t.plan.value.id !in s.disk.files && WaitFor(s.proc.t.plan.value, e.polls, None).Resolved? ==>
      s.proc.t.plan.value.id in s.world.performed
  }

  ghost predicate HonestWallets(env: Env, s: Sys, history: seq<Event>)
    requires Sound(env) && Wf(env, s)
    decreases |history|
  {
    history == [] ||
    (&& HonestWallet(s, history[0])
     && (StepKeepsWf(env, history[0], s);
         HonestWallets(env, Step(env, history[0], s), history[1..])))
  }

  // ---------------------------------------------------------------- booking

  lemma BookKeepsBacked(t: TickState, l: Local, plan: Plan, o: Outcome, performed: seq<ActionId>)
    requires plan.actor < |l.agents| && BooksBacked(t, performed) && Backed(plan.id, o.detail, o.expectation, performed)
    ensures BooksBacked(Book(t, l, plan, o).0, performed)
  {
  }

  lemma FailureKeepsBacked(t: TickState, l: Local, plan: Plan, error: string, performed: seq<ActionId>)
    requires plan.actor < |l.agents| && BooksBacked(t, performed)
    ensures BooksBacked(BookFailure(t, l, plan, error).0, performed)
  {
  }

  lemma MorePerformed(t: TickState, performed: seq<ActionId>, id: ActionId)
    requires BooksBacked(t, performed)
    ensures BooksBacked(t, performed + [id])
    ensures ReceiptBacked(t, performed) ==> ReceiptBacked(t, performed + [id])
  {
  }

  // ---------------------------------------------------------------- the top of the loop

  ghost predicate MoveBacked(m: HeadMove, plan: Option<Plan>, performed: seq<ActionId>) {
    match m
    case Leave | Die => true
    case Execute(t, _) => BooksBacked(t, performed) && t.receipt.None?
    case Resume(t, applied) =>
      && BooksBacked(t, performed) && t.plan == plan && plan.Some?
      && (applied.Success? ==> Backed(plan.value.id, applied.value.1.detail, applied.value.1.expectation, performed))
    case GiveUp(t, _) => BooksBacked(t, performed)
  }

  lemma RecoverIsBacked(env: Env, t: TickState, l: Local, plan: Plan, text: string, performed: seq<ActionId>)
    requires Sound(env) && WfLocal(env, l) && WfTick(env, t) && plan.actor < env.agentCount && t.plan == Some(plan)
    requires BooksBacked(t, performed) && plan.id in performed
    ensures MoveBacked(Recover(env, t, l, plan, text), t.plan, performed)
  {
  }

  lemma MoveIsBacked(env: Env, s: Sys, e: Event)
    requires Sound(env) && Safe(env, s) && EvidenceEverywhere(s) && s.proc.Slot? && s.proc.pc.Head?
    requires e.Advance? && HonestWallet(s, e)
    ensures MoveBacked(MoveAtHead(env, s.proc.t, s.proc.local, s.disk.files, e.polls), s.proc.t.plan, s.world.performed)
  {
    var Slot(_, t, l) := s.proc;
    if t.nextSlot < t.slots && t.available != {} && t.plan.Some? {
      var plan := t.plan.value;
      FailureKeepsBacked(t, l, plan, UNRESOLVED, s.world.performed);
      if t.receipt.None? {
        if plan.id in s.disk.files {
          RecoverIsBacked(env, t, l, plan, s.disk.files[plan.id], s.world.performed);
        } else if WaitFor(plan, e.polls, None).Resolved? {
          RecoverIsBacked(env, t, l, plan, WaitFor(plan, e.polls, None).text, s.world.performed);
        }
      }
    }
  }

  lemma DoMoveKeepsEvidence(s: Sys, m: HeadMove)
    requires EvidenceEverywhere(s) && s.proc.Slot? && MoveBacked(m, s.proc.t.plan, s.world.performed)
    ensures EvidenceEverywhere(DoMove(s, m))
  {
  }

  // ---------------------------------------------------------------- the other steps

  lemma RecordKeepsEvidence(s: Sys, t: TickState, after: Local, o: Outcome, plan: Plan, before: Metrics)
    requires EvidenceEverywhere(s) && t.plan == Some(plan) && BooksBacked(t, s.world.performed)
    requires Backed(plan.id, o.detail, o.expectation, s.world.performed)
    ensures EvidenceEverywhere(Record(s, t, after, o, BuildReceipt(plan, o, before, after.metrics)))
  {
  }

  lemma SkipIsBacked(env: Env, t: TickState, plan: Plan, l: Local, performed: seq<ActionId>)
    requires Sound(env) && WfTick(env, t) && WfLocal(env, l) && plan.actor < env.agentCount
    requires Decide(env, t, plan, l).SkipAction?
    ensures var o := CompleteSkip(plan, Decide(env, t, plan, l), l).1;
            Backed(plan.id, o.detail, o.expectation, performed)
  {
  }

  lemma IssuedKeepsEvidence(s: Sys, plan: Plan, request: Request, reply: Reply)
    requires EvidenceEverywhere(s) && s.proc.Slot? && s.proc.t.plan == Some(plan) && s.proc.pc.Planned?
    ensures EvidenceEverywhere(AfterDecision(s, plan, Issue(request), reply))
  {
    MorePerformed(s.proc.t, s.world.performed, plan.id);
    if s.disk.snapshot.Some? && s.disk.snapshot.value.InTick? {
      MorePerformed(s.disk.snapshot.value.t, s.world.performed, plan.id);
    }
  }

  lemma PlannedKeepsEvidence(env: Env, s: Sys)
    requires Sound(env) && Safe(env, s) && EvidenceEverywhere(s) && s.proc.Slot? && s.proc.pc.Planned?
    ensures EvidenceEverywhere(AtPlanned(env, s))
  {
    var Slot(_, t, l) := s.proc;
    var plan := t.plan.value;
    match Decide(env, t, plan, l)
    case Issue(request) => IssuedKeepsEvidence(s, plan, request, env.reply(plan.id));
    case SkipAction(_, _) =>
      SkipIsBacked(env, t, plan, l, s.world.performed);
      var (after, o) := CompleteSkip(plan, Decide(env, t, plan, l), l);
      RecordKeepsEvidence(s, CountAction(t, plan.action), after, o, plan, l.metrics);
  }

  lemma FiledKeepsEvidence(env: Env, s: Sys)
    requires Sound(env) && Safe(env, s) && EvidenceEverywhere(s) && s.proc.Slot? && s.proc.pc.Filed?
    ensures EvidenceEverywhere(AtFiled(env, s))
  {
    var Slot(Filed(request, raw), t, l) := s.proc;
    var plan := t.plan.value;
    var done := Complete(env, t, plan, request, l, raw);
    if done.Success? {
      RecordKeepsEvidence(s, t, done.value.0, done.value.1, plan, l.metrics);
    }
  }

  lemma BookingKeepsEvidence(env: Env, s: Sys)
    requires Sound(env) && Safe(env, s) && EvidenceEverywhere(s) && s.proc.Slot?
    requires s.proc.pc.Called? || s.proc.pc.Committing? || s.proc.pc.Failing? || s.proc.pc.Cleared?
    ensures EvidenceEverywhere(AtSlot(env, s, []))
  {
    var Slot(pc, t, l) := s.proc;
    match pc
    case Committing(o) => BookKeepsBacked(t, l, t.plan.value, o, s.world.performed);
    case Failing(e) => FailureKeepsBacked(t, l, t.plan.value, e, s.world.performed);
    case _ =>
  }

  lemma SlotKeepsEvidence(env: Env, s: Sys, e: Event)
    requires Sound(env) && Safe(env, s) && EvidenceEverywhere(s) && s.proc.Slot? && e.Advance? && HonestWallet(s, e)
    ensures EvidenceEverywhere(AtSlot(env, s, e.polls))
  {
    match s.proc.pc
    case Head =>
      MoveIsBacked(env, s, e);
      DoMoveKeepsEvidence(s, MoveAtHead(env, s.proc.t, s.proc.local, s.disk.files, e.polls));
    case Planned => PlannedKeepsEvidence(env, s);
    case Filed(_, _) => FiledKeepsEvidence(env, s);
    case _ => BookingKeepsEvidence(env, s);
  }

  // ---------------------------------------------------------------- whole histories

  lemma StepKeepsEvidence(env: Env, s: Sys, e: Event)
    requires Sound(env) && Safe(env, s) && EvidenceEverywhere(s) && HonestWallet(s, e)
    ensures EvidenceEverywhere(Step(env, e, s))
  {
    if e.Advance? && s.proc.Slot? {
      SlotKeepsEvidence(env, s, e);
    }
  }

  lemma {:induction false} HistoryKeepsEvidence(env: Env, s: Sys, history: seq<Event>)
    requires Sound(env) && Safe(env, s) && EvidenceEverywhere(s) && HonestWallets(env, s, history)
    ensures EvidenceEverywhere(Exec(env, s, history))
    decreases |history|
  {
    if history != [] {
      StepIsSafe(env, history[0], s);
      StepKeepsEvidence(env, s, history[0]);
      HistoryKeepsEvidence(env, Step(env, history[0], s), history[1..]);
    }
  }

  lemma OnceIfIn(performed: seq<ActionId>, id: ActionId)
    requires OncePerSlot(performed) && id in performed
    ensures multiset(performed)[id] == 1
  {
    var i :| 0 <= i < |performed| && performed[i] == id;
    assert performed == performed[..i] + [id] + performed[i + 1..];
    assert id !in performed[..i] by {
      assert forall j | 0 <= j < i :: performed[j] != id;
    }
    assert id !in performed[i + 1..] by {
      assert forall j | i < j < |performed| :: performed[j] != id;
    }
  }

  /** Exactly once: over every history in which wallets show only effects of performed actions, each
      committed slot on disk that did not skip its action performed it exactly once, and so did each
      slot whose effect will be verified. */
  lemma CommittedExactlyOnce(env: Env, history: seq<Event>)
    requires Sound(env) && HonestWallets(env, Start(env), history)
    ensures var s := Exec(env, Start(env), history);
            s.disk.snapshot.Some? && s.disk.snapshot.value.InTick? ==>
              var t := s.disk.snapshot.value.t;
              && (forall k | 0 <= k < |t.trace| && t.trace[k].Committed? && !SkipText(t.trace[k].detail) ::
                    multiset(s.world.performed)[t.trace[k].id] == 1)
              && (forall k | 0 <= k < |t.expectations| ::
                    t.expectations[k].id.Some? && multiset(s.world.performed)[t.expectations[k].id.value] == 1)
  {
    HistoryKeepsEvidence(env, Start(env), history);
    AtMostOnce(env, history);
    var s := Exec(env, Start(env), history);
    forall id | id in s.world.performed
      ensures multiset(s.world.performed)[id] == 1
    {
      OnceIfIn(s.world.performed, id);
    }
  }
}
