/** One slot, crashed at a chosen point and resumed, from any safe state: what the slot comes to when
    the command printed text that can be read back, and for payments when it cannot. */
module CrashPoints {
  import opened Wrappers
  import opened OutputText
  import opened World
  import opened Actions
  import opened Probe
  import opened SlotProtocol
  import opened SlotSafety
  import opened CrashRefinement
  import opened CrashLimits

  /** A process about to plan a slot. */
  ghost predicate AtOpenSlot(env: Env, s: Sys) {
    && Sound(env) && Safe(env, s) && s.proc.Slot? && s.proc.pc.Head?
    && Base(env, s.proc.t, s.proc.local) && Open(env, s.proc.t, s.proc.local)
  }

  /** The slot's command will run and print. */
  predicate Prints(c: Script) {
    c.decision.Issue? && c.reply.Printed?
  }

  /** It prints recoverable text. */
  predicate Recovers(c: Script) {
    Prints(c) && Recoverable(c.plan.action, Strip(c.reply.stdout))
  }

  ghost function Now(env: Env, s: Sys): Script
    requires AtOpenSlot(env, s)
  {
    ScriptOf(env, s.proc.t, s.proc.local).value
  }

  ghost predicate ResultFiled(c: Script, s: Sys, r: Sys) {
    && Prints(c)
    && r.proc == Slot(SlotPc.Filed(c.decision.request, Strip(c.reply.stdout)), CountAction(c.t, c.plan.action), c.l)
    && r.disk.snapshot == Some(InTick(c.t, c.l))
    && r.disk.files == s.disk.files[c.plan.id := Strip(c.reply.stdout)]
    && r.world == s.world.(performed := s.world.performed + [c.plan.id])
  }

  lemma OneStep(env: Env, s: Sys, rest: seq<Event>) returns (r: Sys)
    requires Sound(env) && Safe(env, s) && s.proc.Slot?
    ensures r == AtSlot(env, s, []) && Safe(env, r) && Exec(env, s, [GO] + rest) == Exec(env, r, rest)
  {
    r := AtSlot(env, s, []);
    SlotIsSafe(env, s, []);
    Unroll(env, s, [GO] + rest);
    assert ([GO] + rest)[1..] == rest;
  }

  /** Plan, run, file: three steps from an open slot to a filed result. */
  lemma ReachesFiled(env: Env, s: Sys, rest: seq<Event>) returns (r: Sys)
    requires AtOpenSlot(env, s) && Prints(Now(env, s))
    ensures Safe(env, r) && ResultFiled(Now(env, s), s, r)
    ensures Exec(env, s, [GO] + ([GO] + ([GO] + rest))) == Exec(env, r, rest)
  {
    var s1 := OneStep(env, s, [GO] + ([GO] + rest));
    var s2 := OneStep(env, s1, [GO] + rest);
    r := OneStep(env, s2, rest);
  }

  // ---------------------------------------------------------------- crash after the result was filed

  lemma FiledIsInside(env: Env, s: Sys, w: Sys, r: Sys)
    requires AtOpenSlot(env, s) && Recovers(Now(env, s)) && ResultFiled(Now(env, s), s, w)
    requires r == w.(proc := Slot(Head, Now(env, s).t, Now(env, s).l))
    ensures InsideSlot(true, env, s.proc.t, s.proc.local, Some(Now(env, s)), r)
  {
    ScriptIsWf(env, s.proc.t, s.proc.local);
  }

  lemma FiledResumes(env: Env, s: Sys, r: Sys)
    requires AtOpenSlot(env, s) && Recovers(Now(env, s)) && Safe(env, r)
    requires var c := Now(env, s);
             r.proc == Slot(Head, c.t, c.l) && c.plan.id in r.disk.files
             && r.disk.files[c.plan.id] == Strip(c.reply.stdout)
    ensures AtHead(env, r, []).proc.Slot?
  {
    var c := Now(env, s);
    ScriptIsWf(env, s.proc.t, s.proc.local);
    DecisionInRange(env, c.t, c.plan, c.l);
    RebuildIsFaithful(env, c.t, c.plan, c.l, c.reply.stdout);
  }

  /** Plan, run, file, crash, restart. */
  lemma CrashedAfterFiling(env: Env, s: Sys, rest: seq<Event>) returns (r: Sys)
    requires AtOpenSlot(env, s) && Recovers(Now(env, s))
    ensures var c := Now(env, s);
            && Safe(env, r) && r.proc == Slot(Head, c.t, c.l) && c.plan.id in r.disk.files
            && r.disk.files[c.plan.id] == Strip(c.reply.stdout)
            && r.world.performed == s.world.performed + [c.plan.id]
            && InsideSlot(true, env, s.proc.t, s.proc.local, Some(c), r)
    ensures AtHead(env, r, []).proc.Slot?
    ensures Exec(env, s, [GO, GO, GO, Crash, Restart] + rest) == Exec(env, r, rest)
  {
    var c := Now(env, s);
    Regroup(rest);
    var w := ReachesFiled(env, s, [Crash] + ([Restart] + rest));
    CrashThenRestart(env, w, c.t, c.l, rest);
    r := w.(proc := Slot(Head, c.t, c.l));
    FiledIsInside(env, s, w, r);
    FiledResumes(env, s, r);
  }

  lemma Regroup(rest: seq<Event>)
    ensures [GO, GO, GO, Crash, Restart] + rest == [GO] + ([GO] + ([GO] + ([Crash] + ([Restart] + rest))))
  {
  }

  /** A crash right after the result was filed is harmless: the next process ends the slot in exactly
      the uninterrupted state, counters included, and the action was performed once. */
  lemma CrashAfterFilingIsHarmless(env: Env, s: Sys) returns (r: Sys)
    requires AtOpenSlot(env, s) && Recovers(Now(env, s))
    ensures r == Exec(env, s, [GO, GO, GO, Crash, Restart])
    ensures r.world.performed == s.world.performed + [Now(env, s).plan.id]
    ensures Wf(env, r) && r.proc.Slot? && Wf(env, AtHead(env, r, [])) && AtHead(env, r, []).proc.Slot?
    ensures var (t, l) := DirectSlot(env, s.proc.t, s.proc.local);
            Finish(env, AtHead(env, r, [])).proc == Slot(Head, t, l)
  {
    r := CrashedAfterFiling(env, s, []);
    assert [GO, GO, GO, Crash, Restart] + [] == [GO, GO, GO, Crash, Restart];
    FiledFinishes(env, s.proc.t, s.proc.local, r);
  }

  /** Unless the next process dies too, between removing the result and committing: then, if no wallet
      shows the effect, the action was performed once and its slot is booked as failed. */
  lemma TwoCrashesBookAFailure(env: Env, s: Sys, polls: seq<Poll>)
    requires AtOpenSlot(env, s) && Recovers(Now(env, s))
    requires WaitFor(Now(env, s).plan, polls, None).NothingSeen?
    ensures Now(env, s).plan.actor < |Now(env, s).l.agents|
    ensures var c := Now(env, s);
            var s' := Exec(env, s, [GO, GO, GO, Crash, Restart] + [GO, GO, Crash, Restart, Advance(polls, 0, None), GO]);
            && s'.world.performed == s.world.performed + [c.plan.id]
            && s'.proc.Slot? && s'.proc.t == Close(BookFailure(c.t, c.l, c.plan, UNRESOLVED).0)
            && s'.disk.snapshot == Some(InTick(s'.proc.t, s'.proc.local))
  {
    var again := [GO, GO, Crash, Restart, Advance(polls, 0, None), GO];
    var r := CrashedAfterFiling(env, s, again);
    FiledIsLost(env, s.proc.t, s.proc.local, r, polls);
  }

  lemma FiledIsLost(env: Env, t: TickState, l: Local, r: Sys, polls: seq<Poll>)
    requires Base(env, t, l) && Open(env, t, l) && Safe(env, r)
    requires InsideSlot(true, env, t, l, ScriptOf(env, t, l), r)
    requires var c := ScriptOf(env, t, l).value;
             Recovers(c) && r.proc == Slot(Head, c.t, c.l) && c.plan.id in r.disk.files
             && r.disk.files[c.plan.id] == Strip(c.reply.stdout) && WaitFor(c.plan, polls, None).NothingSeen?
    requires AtHead(env, r, []).proc.Slot?
    ensures var c := ScriptOf(env, t, l).value;
            && c.plan.actor < |c.l.agents|
            && var s' := Exec(env, r, [GO, GO, Crash, Restart, Advance(polls, 0, None), GO]);
            && s'.world == r.world && s'.proc.Slot?
            && s'.proc.t == Close(BookFailure(c.t, c.l, c.plan, UNRESOLVED).0)
            && s'.disk.snapshot == Some(InTick(s'.proc.t, s'.proc.local))
  {
    ScriptIsWf(env, t, l);
    SecondCrashLosesTheResult(env, t, l, r, polls);
  }

  lemma FiledFinishes(env: Env, t: TickState, l: Local, r: Sys)
    requires Base(env, t, l) && Open(env, t, l) && Safe(env, r)
    requires InsideSlot(true, env, t, l, ScriptOf(env, t, l), r)
    requires var c := ScriptOf(env, t, l).value;
             Recovers(c) && r.proc == Slot(Head, c.t, c.l) && c.plan.id in r.disk.files
             && r.disk.files[c.plan.id] == Strip(c.reply.stdout)
    requires AtHead(env, r, []).proc.Slot?
    ensures Wf(env, AtHead(env, r, []))
    ensures var (u, m) := DirectSlot(env, t, l);
            Finish(env, AtHead(env, r, [])).proc == Slot(Head, u, m)
  {
    ScriptIsWf(env, t, l);
    ResumedSlotAgreesIff(env, t, l, r, []);
  }

  /** And unless the text names no transaction. The uninterrupted payment succeeds on it; after this
      crash no history gets past the slot, though the payment was made. */
  lemma UnreadablePaymentStopsTheRun(env: Env, s: Sys, history: seq<Event>)
    requires AtOpenSlot(env, s) && Prints(Now(env, s))
    requires Now(env, s).plan.action == SendBalance || Now(env, s).plan.action == SpendBalance
    requires ExtractTxid(Strip(Now(env, s).reply.stdout)).None?
    ensures Now(env, s).attempt.Success?
    ensures var c := Now(env, s);
            var s' := Exec(env, s, [GO, GO, GO, Crash, Restart] + history);
            && s'.disk.snapshot == Some(InTick(c.t, c.l))
            && s'.world.performed == s.world.performed + [c.plan.id]
            && (s'.proc.Down? || s'.proc == Slot(Head, c.t, c.l))
  {
    var c := Now(env, s);
    Regroup(history);
    var w := ReachesFiled(env, s, [Crash] + ([Restart] + history));
    CrashThenRestart(env, w, c.t, c.l, history);
    PaymentIsUnreadable(env, s.proc.t, s.proc.local);
    UnreadableResultIsFatal(env, w.(proc := Slot(Head, c.t, c.l)), c.t, c.l, history);
  }

  lemma PaymentIsUnreadable(env: Env, t: TickState, l: Local)
    requires Base(env, t, l) && Open(env, t, l)
    requires var c := ScriptOf(env, t, l).value;
             Prints(c) && (c.plan.action == SendBalance || c.plan.action == SpendBalance)
             && ExtractTxid(Strip(c.reply.stdout)).None?
    ensures var c := ScriptOf(env, t, l).value;
            && WfLocal(env, c.l) && c.plan.actor < env.agentCount && c.attempt.Success?
            && RebuildReceipt(env, c.t, c.plan, c.l, Strip(c.reply.stdout)).Failure?
            && c.t.plan == Some(c.plan) && c.t.receipt.None? && !AtTickEnd(c.t)
  {
    var c := ScriptOf(env, t, l).value;
    ScriptIsWf(env, t, l);
    UnreadablePaymentSucceedsDirectly(env, c.t, c.plan, c.l);
  }

  // ---------------------------------------------------------------- crash after the receipt was persisted

  /** What the persisted receipt and the state persisted with it are. */
  ghost predicate ReceiptPersisted(c: Script, w: Sys, x: Sys) {
    && c.attempt.Success? && x.proc.Slot? && x.world == w.world
    && var (after, o) := c.attempt.value;
    var receipt := BuildReceipt(c.plan, o, c.l.metrics, after.metrics);
    && receipt.Success?
    && x.disk == w.disk.(snapshot := Some(InTick(CountAction(c.t, c.plan.action).(receipt := Some(receipt.value)), after)))
  }

  lemma AttemptCompletes(env: Env, t: TickState, l: Local)
    requires Base(env, t, l) && Open(env, t, l) && Recovers(ScriptOf(env, t, l).value)
    ensures var c := ScriptOf(env, t, l).value;
            && c.plan.actor < env.agentCount && WfLocal(env, c.l) && RequestInRange(env, c.decision.request)
            && c.attempt.Success?
            && Complete(env, CountAction(c.t, c.plan.action), c.plan, c.decision.request, c.l, Strip(c.reply.stdout)) == c.attempt
  {
    var c := ScriptOf(env, t, l).value;
    ScriptIsWf(env, t, l);
    DecisionInRange(env, c.t, c.plan, c.l);
    RebuildIsFaithful(env, c.t, c.plan, c.l, c.reply.stdout);
  }

  lemma CompletedIsReceipted(env: Env, c: Script, s: Sys, w: Sys)
    requires WfScript(env, c) && Recovers(c) && ResultFiled(c, s, w) && Wf(env, w)
    requires RequestInRange(env, c.decision.request) && c.attempt.Success?
    requires Complete(env, CountAction(c.t, c.plan.action), c.plan, c.decision.request, c.l, Strip(c.reply.stdout)) == c.attempt
    ensures ReceiptPersisted(c, w, AtFiled(env, w))
  {
    CompleteReceipted(env, CountAction(c.t, c.plan.action), c.plan, c.decision.request, c.l, Strip(c.reply.stdout));
  }

  /** Plan, run, file, receipt: four steps from an open slot. */
  lemma ReachesReceipt(env: Env, s: Sys, rest: seq<Event>) returns (w: Sys, x: Sys)
    requires AtOpenSlot(env, s) && Recovers(Now(env, s))
    ensures Safe(env, x) && ResultFiled(Now(env, s), s, w) && ReceiptPersisted(Now(env, s), w, x)
    ensures Exec(env, s, [GO] + ([GO] + ([GO] + ([GO] + rest)))) == Exec(env, x, rest)
  {
    ScriptIsWf(env, s.proc.t, s.proc.local);
    w := ReachesFiled(env, s, [GO] + rest);
    AttemptCompletes(env, s.proc.t, s.proc.local);
    CompletedIsReceipted(env, Now(env, s), s, w);
    x := OneStep(env, w, rest);
  }

  lemma ReceiptIsInside(env: Env, s: Sys, w: Sys, x: Sys, r: Sys)
    requires AtOpenSlot(env, s) && Recovers(Now(env, s)) && ResultFiled(Now(env, s), s, w) && ReceiptPersisted(Now(env, s), w, x)
    requires r == x.(proc := Slot(Head, x.disk.snapshot.value.t, x.disk.snapshot.value.local))
    ensures InsideSlot(true, env, s.proc.t, s.proc.local, Some(Now(env, s)), r)
    ensures r.proc.t.plan.Some? && r.proc.t.receipt.Some?
  {
    ScriptIsWf(env, s.proc.t, s.proc.local);
  }

  /** A crash right after the receipt was persisted is not: from every open slot the next process
      ends the slot with one counter one too high, and otherwise in the uninterrupted state. */
  lemma CrashAfterReceiptCountsTwice(env: Env, s: Sys) returns (r: Sys, k: Metric)
    requires AtOpenSlot(env, s) && Recovers(Now(env, s))
    ensures r == Exec(env, s, [GO, GO, GO, GO, Crash, Restart])
    ensures r.world.performed == s.world.performed + [Now(env, s).plan.id]
    ensures Wf(env, r) && r.proc.Slot? && Wf(env, AtHead(env, r, [])) && AtHead(env, r, []).proc.Slot?
    ensures var (t, l) := DirectSlot(env, s.proc.t, s.proc.local);
            Finish(env, AtHead(env, r, [])).proc == Slot(Head, t, l.(metrics := Bump(l.metrics, k, 1)))
  {
    var tail := [Crash] + ([Restart] + []);
    var w, x := ReachesReceipt(env, s, tail);
    assert [GO] + ([GO] + ([GO] + ([GO] + tail))) == [GO, GO, GO, GO, Crash, Restart];
    var InTick(d, dl) := x.disk.snapshot.value;
    CrashThenRestart(env, x, d, dl, []);
    r := x.(proc := Slot(Head, d, dl));
    ReceiptIsInside(env, s, w, x, r);
    k := RecordedReceiptCountsTwice(env, s.proc.t, s.proc.local, r);
  }
}
