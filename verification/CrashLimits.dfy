/** Progress of the slot loop, and the histories in which a resumed slot does not commit what the
    uninterrupted slot commits. */
module CrashLimits {
  import opened Wrappers
  import opened OutputText
  import opened World
  import opened Actions
  import opened Probe
  import opened SlotProtocol
  import opened SlotSafety
  import opened CrashRefinement

  const GO := Advance([], 0, None)

  // ---------------------------------------------------------------- progress

  function StepsLeft(pc: SlotPc): nat {
    match pc
    case Head => 0
    case Cleared => 1
    case Committing(_) => 2
    case Failing(_) => 2
    case Filed(_, _) => 3
    case Called(_, _) => 4
    case Planned => 5
  }

  lemma WorkGetsCloser(env: Env, s: Sys)
    requires Sound(env) && Wf(env, s) && s.proc.Slot? && !s.proc.pc.Head?
    ensures var s' := AtSlot(env, s, []);
            s'.proc.Slot? && StepsLeft(s'.proc.pc) < StepsLeft(s.proc.pc) && s'.proc.t.tick == s.proc.t.tick
            && s'.proc.t.nextSlot == s.proc.t.nextSlot + (if s.proc.pc.Cleared? then 1 else 0)
  {
  }

  /** Running on without a crash until the slot is closed. */
  ghost function Finish(env: Env, s: Sys): (r: Sys)
    requires Sound(env) && Wf(env, s) && s.proc.Slot?
    ensures Wf(env, r) && r.proc.Slot? && r.proc.pc.Head? && r.proc.t.tick == s.proc.t.tick
    ensures !s.proc.pc.Head? ==> r.proc.t.nextSlot == s.proc.t.nextSlot + 1
    decreases StepsLeft(s.proc.pc)
  {
    if s.proc.pc.Head? then s
    else
      WorkGetsCloser(env, s);
      SlotKeepsWf(env, s, []);
      Finish(env, AtSlot(env, s, []))
  }

  /** Past the top of the loop no slot can get stuck: at most five more steps close it. */
  lemma {:induction false} FinishIsAHistory(exact: bool, env: Env, tick: nat, s: Sys) returns (history: seq<Event>)
    requires Sound(env) && Wf(env, s) && s.proc.Slot?
    ensures |history| <= StepsLeft(s.proc.pc) <= 5
    ensures Exec(env, s, history) == Finish(env, s)
    ensures BenignHistory(exact, env, tick, s, history)
    decreases StepsLeft(s.proc.pc)
  {
    if s.proc.pc.Head? {
      history := [];
    } else {
      WorkGetsCloser(env, s);
      StepKeepsWf(env, GO, s);
      var rest := FinishIsAHistory(exact, env, tick, Step(env, GO, s));
      history := [GO] + rest;
      assert history[1..] == rest;
    }
  }

  lemma ClearedEndsSlot(exact: bool, env: Env, t: TickState, l: Local, s: Sys)
    requires Base(env, t, l) && InsideSlot(exact, env, t, l, ScriptOf(env, t, l), s)
    requires Wf(env, s) && s.proc.Slot? && s.proc.pc.Cleared?
    ensures Open(env, t, l)
    ensures var p := AtCleared(env, s).proc;
            p.t == DirectSlot(env, t, l).0 && Same(exact, p.local, DirectSlot(env, t, l).1)
  {
    ScriptIsWf(env, t, l);
  }

  lemma NextInside(exact: bool, env: Env, t: TickState, l: Local, s: Sys) returns (s': Sys)
    requires Base(env, t, l) && Safe(env, s) && InsideSlot(exact, env, t, l, ScriptOf(env, t, l), s)
    requires s.proc.Slot? && !s.proc.pc.Head? && !s.proc.pc.Cleared?
    ensures Safe(env, s') && InsideSlot(exact, env, t, l, ScriptOf(env, t, l), s')
    ensures s'.proc.Slot? && !s'.proc.pc.Head? && StepsLeft(s'.proc.pc) < StepsLeft(s.proc.pc)
    ensures Finish(env, s) == Finish(env, s')
  {
    var inside := WorkStaysInside(exact, env, t, l, s);
    s' := FinishUnrolls(env, s);
  }

  lemma WorkStaysInside(exact: bool, env: Env, t: TickState, l: Local, s: Sys) returns (s': Sys)
    requires Base(env, t, l) && Safe(env, s) && InsideSlot(exact, env, t, l, ScriptOf(env, t, l), s)
    requires s.proc.Slot? && !s.proc.pc.Head? && !s.proc.pc.Cleared?
    ensures s' == AtSlot(env, s, []) && Safe(env, s') && InsideSlot(exact, env, t, l, ScriptOf(env, t, l), s')
  {
    SlotIsSafe(env, s, []);
    SlotStepStaysInside(exact, env, t, l, s, GO);
    s' := AtSlot(env, s, []);
  }

  lemma FinishUnrolls(env: Env, s: Sys) returns (s': Sys)
    requires Sound(env) && Wf(env, s) && s.proc.Slot? && !s.proc.pc.Head?
    ensures s' == AtSlot(env, s, []) && Wf(env, s') && s'.proc.Slot?
    ensures StepsLeft(s'.proc.pc) < StepsLeft(s.proc.pc) && Finish(env, s) == Finish(env, s')
    ensures !s.proc.pc.Cleared? ==> !s'.proc.pc.Head?
  {
    WorkGetsCloser(env, s);
    SlotKeepsWf(env, s, []);
    s' := AtSlot(env, s, []);
  }

  /** From inside the uninterrupted slot, running on ends the slot as the uninterrupted one does. */
  lemma {:induction false} FinishEndsSlot(exact: bool, env: Env, t: TickState, l: Local, s: Sys)
    requires Base(env, t, l) && Safe(env, s) && InsideSlot(exact, env, t, l, ScriptOf(env, t, l), s)
    requires s.proc.Slot? && !s.proc.pc.Head?
    ensures Open(env, t, l)
    ensures var p := Finish(env, s).proc;
            p.t == DirectSlot(env, t, l).0 && Same(exact, p.local, DirectSlot(env, t, l).1)
    decreases StepsLeft(s.proc.pc)
  {
    if s.proc.pc.Cleared? {
      ClearedEndsSlot(exact, env, t, l, s);
    } else {
      var s' := NextInside(exact, env, t, l, s);
      FinishEndsSlot(exact, env, t, l, s');
    }
  }

  /** The step-by-step protocol, left alone, takes each slot to exactly the specified end. */
  lemma UninterruptedSlot(env: Env, s: Sys)
    requires Sound(env) && Safe(env, s) && s.proc.Slot? && s.proc.pc.Head?
    requires Open(env, s.proc.t, s.proc.local)
    ensures Wf(env, AtHead(env, s, [])) && AtHead(env, s, []).proc.Slot?
    ensures var (t, l) := DirectSlot(env, s.proc.t, s.proc.local);
            Finish(env, AtHead(env, s, [])).proc == Slot(Head, t, l)
  {
    var Slot(_, t, l) := s.proc;
    HeadStaysInside(env, t, l, s, []);
    FinishEndsSlot(true, env, t, l, AtHead(env, s, []));
  }

  // ---------------------------------------------------------------- resumed slots, exactly

  /** A resumed process that finds its plan and no receipt on disk, and that does not die on what it
      finds, closes the slot as the uninterrupted process would if and only if it saw the effect of
      the command: in the result file, or in a wallet before the deadline. */
  lemma ResumedSlotAgreesIff(env: Env, t: TickState, l: Local, s: Sys, polls: seq<Poll>)
    requires Base(env, t, l) && Safe(env, s) && InsideSlot(true, env, t, l, ScriptOf(env, t, l), s)
    requires s.proc.Slot? && s.proc.pc.Head? && s.proc.t.plan.Some? && s.proc.t.receipt.None?
    requires var plan := s.proc.t.plan.value;
             !Seen(plan, s.disk.files, polls) || Benign(true, env, t.tick, s, Advance(polls, 0, None))
    requires AtHead(env, s, polls).proc.Slot?
    ensures Open(env, t, l)
    ensures Wf(env, AtHead(env, s, polls))
    ensures var p := Finish(env, AtHead(env, s, polls)).proc;
            (p.t, p.local) == DirectSlot(env, t, l) <==> Seen(s.proc.t.plan.value, s.disk.files, polls)
  {
    SlotKeepsWf(env, s, polls);
    if Seen(s.proc.t.plan.value, s.disk.files, polls) {
      SeenSlotAgrees(env, t, l, s, polls);
    } else {
      UnseenSlotDiffers(env, t, l, s, polls);
    }
  }

  ghost predicate Seen(plan: Plan, files: map<ActionId, string>, polls: seq<Poll>) {
    plan.id in files || !WaitFor(plan, polls, None).NothingSeen?
  }

  lemma SeenSlotAgrees(env: Env, t: TickState, l: Local, s: Sys, polls: seq<Poll>)
    requires Base(env, t, l) && Safe(env, s) && InsideSlot(true, env, t, l, ScriptOf(env, t, l), s)
    requires s.proc.Slot? && s.proc.pc.Head? && s.proc.t.plan.Some? && s.proc.t.receipt.None?
    requires Benign(true, env, t.tick, s, Advance(polls, 0, None))
    requires Wf(env, AtHead(env, s, polls)) && AtHead(env, s, polls).proc.Slot?
    ensures Open(env, t, l)
    ensures var p := Finish(env, AtHead(env, s, polls)).proc;
            (p.t, p.local) == DirectSlot(env, t, l)
  {
    HeadStaysInside(env, t, l, s, polls);
    FinishEndsSlot(true, env, t, l, AtHead(env, s, polls));
  }

  lemma HeadStaysInside(env: Env, t: TickState, l: Local, s: Sys, polls: seq<Poll>)
    requires Base(env, t, l) && Safe(env, s) && InsideSlot(true, env, t, l, ScriptOf(env, t, l), s)
    requires s.proc.Slot? && s.proc.pc.Head? && Benign(true, env, t.tick, s, Advance(polls, 0, None))
    ensures Safe(env, AtHead(env, s, polls))
    ensures InsideSlot(true, env, t, l, ScriptOf(env, t, l), AtHead(env, s, polls))
    ensures AtHead(env, s, polls).proc.Slot? ==> !AtHead(env, s, polls).proc.pc.Head?
  {
    HeadIsSafe(env, s, polls);
    ScriptIsWf(env, t, l);
    HeadMoveMatches(true, env, t, l, s, Advance(polls, 0, None));
    DoMoveStaysInside(true, env, t, l, ScriptOf(env, t, l), s,
                      MoveAtHead(env, s.proc.t, s.proc.local, s.disk.files, polls));
  }

  lemma UnseenSlotDiffers(env: Env, t: TickState, l: Local, s: Sys, polls: seq<Poll>)
    requires Base(env, t, l) && Safe(env, s) && InsideSlot(true, env, t, l, ScriptOf(env, t, l), s)
    requires s.proc.Slot? && s.proc.pc.Head? && s.proc.t.plan.Some? && s.proc.t.receipt.None?
    requires !Seen(s.proc.t.plan.value, s.disk.files, polls)
    requires Wf(env, AtHead(env, s, polls))
    ensures AtHead(env, s, polls).proc.Slot? && Open(env, t, l)
    ensures var p := Finish(env, AtHead(env, s, polls)).proc;
            p.t.counts != DirectSlot(env, t, l).0.counts
  {
    ScriptIsWf(env, t, l);
    var c := ScriptOf(env, t, l).value;
    GivingUpLosesTheCount(c.t, s.proc.local, c.l, c.plan, c.attempt);
    var given := BookFailure(s.proc.t, s.proc.local, c.plan, UNRESOLVED);
    GivingUp(env, s, polls, given.0, given.1);
  }

  lemma GivingUp(env: Env, s: Sys, polls: seq<Poll>, t: TickState, l: Local)
    requires Sound(env) && Safe(env, s) && s.proc.Slot? && s.proc.pc.Head? && !AtTickEnd(s.proc.t)
    requires s.proc.t.plan.Some? && s.proc.t.receipt.None? && !Seen(s.proc.t.plan.value, s.disk.files, polls)
    requires (t, l) == BookFailure(s.proc.t, s.proc.local, s.proc.t.plan.value, UNRESOLVED)
    requires Wf(env, AtHead(env, s, polls))
    ensures AtHead(env, s, polls).proc == Slot(Cleared, t, l)
    ensures Finish(env, AtHead(env, s, polls)).proc == Slot(Head, Close(t), l)
  {
    var s1 := AtHead(env, s, polls);
    assert s1.proc == Slot(Cleared, t, l);
    SlotKeepsWf(env, s1, []);
    assert Finish(env, AtCleared(env, s1)) == AtCleared(env, s1);
  }

  lemma GivingUpLosesTheCount(t: TickState, dl: Local, l: Local, plan: Plan, attempt: Result<(Local, Outcome), string>)
    requires plan.actor < |dl.agents| && plan.actor < |l.agents|
    requires attempt.Success? ==> plan.actor < |attempt.value.0.agents|
    ensures CountOf(BookFailure(t, dl, plan, UNRESOLVED).0.counts, plan.action) == CountOf(t.counts, plan.action)
    ensures CountOf(EndOf(CountAction(t, plan.action), l, plan, attempt).0.counts, plan.action)
            == CountOf(t.counts, plan.action) + 1
  {
  }

  // ---------------------------------------------------------------- metrics on the receipt path

  lemma {:induction false} FinishKeepsMetrics(env: Env, s: Sys)
    requires Sound(env) && Wf(env, s) && s.proc.Slot? && (s.proc.pc.Committing? || s.proc.pc.Cleared?)
    ensures Finish(env, s).proc.local.metrics == s.proc.local.metrics
    decreases StepsLeft(s.proc.pc)
  {
    WorkGetsCloser(env, s);
    SlotKeepsWf(env, s, []);
    if s.proc.pc.Committing? {
      FinishKeepsMetrics(env, AtCommitting(env, s));
    }
  }

  lemma ReplayedMove(env: Env, s: Sys, after: Local, o: Outcome)
    requires Sound(env) && Wf(env, s) && s.proc.Slot? && s.proc.pc.Head? && !AtTickEnd(s.proc.t)
    requires s.proc.t.plan.Some? && s.proc.t.receipt.Some? && s.proc.t.plan.value.slot == s.proc.t.nextSlot
    requires ApplyReceipt(s.proc.t.plan.value, s.proc.t.receipt.value, s.proc.local) == Success((after, o))
    ensures AtHead(env, s, []).proc == Slot(Committing(o), s.proc.t, after)
  {
  }

  /** The crash between writing the receipt and committing: the resumed process ends the slot in the
      uninterrupted state except for one counter, which it counts twice. */
  lemma RecordedReceiptCountsTwice(env: Env, t: TickState, l: Local, s: Sys) returns (k: Metric)
    requires Base(env, t, l) && Safe(env, s) && InsideSlot(true, env, t, l, ScriptOf(env, t, l), s)
    requires s.proc.Slot? && s.proc.pc.Head? && s.proc.t.plan.Some? && s.proc.t.receipt.Some?
    ensures Open(env, t, l)
    ensures Wf(env, AtHead(env, s, [])) && AtHead(env, s, []).proc.Slot?
    ensures var (u, m) := DirectSlot(env, t, l);
            Finish(env, AtHead(env, s, [])).proc == Slot(Head, u, m.(metrics := Bump(m.metrics, k, 1)))
  {
    ScriptIsWf(env, t, l);
    var c := ScriptOf(env, t, l).value;
    k := AttemptReceipted(env, c.t, c.plan, c.l);
    var (after, o) := c.attempt.value;
    ReplayCountsTwice(c.plan, c.l, after, o, k);
    var more := after.(metrics := Bump(after.metrics, k, 1));
    ReplayedMove(env, s, more, Outcome(o.detail, Meaningful(o.expectation), o.used));
    SlotKeepsWf(env, s, []);
    FinishKeepsMetrics(env, AtHead(env, s, []));
    LooseInside(env, t, l, ScriptOf(env, t, l), s);
    ReplayEndsSlot(env, t, l, s);
    DirectMetrics(CountAction(c.t, c.plan.action), c.l, c.plan, after, o);
  }

  lemma LooseInside(env: Env, t: TickState, l: Local, sc: Option<Script>, s: Sys)
    requires InsideSlot(true, env, t, l, sc, s) && s.proc.Slot? && s.proc.pc.Head?
    ensures InsideSlot(false, env, t, l, sc, s)
  {
  }

  lemma ReplayEndsSlot(env: Env, t: TickState, l: Local, s: Sys)
    requires Base(env, t, l) && Safe(env, s) && InsideSlot(false, env, t, l, ScriptOf(env, t, l), s)
    requires s.proc.Slot? && s.proc.pc.Head? && s.proc.t.plan.Some? && s.proc.t.receipt.Some?
    requires Wf(env, AtHead(env, s, [])) && AtHead(env, s, []).proc.Slot?
    ensures Open(env, t, l)
    ensures var p := Finish(env, AtHead(env, s, [])).proc;
            p.t == DirectSlot(env, t, l).0 && Same(false, p.local, DirectSlot(env, t, l).1)
  {
    HeadStaysInsideLoosely(env, t, l, s);
    FinishEndsSlot(false, env, t, l, AtHead(env, s, []));
  }

  lemma HeadStaysInsideLoosely(env: Env, t: TickState, l: Local, s: Sys)
    requires Base(env, t, l) && Safe(env, s) && InsideSlot(false, env, t, l, ScriptOf(env, t, l), s)
    requires s.proc.Slot? && s.proc.pc.Head? && s.proc.t.plan.Some? && s.proc.t.receipt.Some?
    ensures Safe(env, AtHead(env, s, []))
    ensures InsideSlot(false, env, t, l, ScriptOf(env, t, l), AtHead(env, s, []))
    ensures AtHead(env, s, []).proc.Slot? ==> !AtHead(env, s, []).proc.pc.Head?
  {
    HeadIsSafe(env, s, []);
    ScriptIsWf(env, t, l);
    HeadMoveMatches(false, env, t, l, s, GO);
    DoMoveStaysInside(false, env, t, l, ScriptOf(env, t, l), s,
                      MoveAtHead(env, s.proc.t, s.proc.local, s.disk.files, []));
  }

  lemma DirectMetrics(t: TickState, l: Local, plan: Plan, after: Local, o: Outcome)
    requires plan.actor < |l.agents| && plan.actor < |after.agents|
    ensures EndOf(t, l, plan, Success((after, o))).1.metrics == after.metrics
  {
  }

  // ---------------------------------------------------------------- a result lost to a second crash

  /** The result file is removed before the slot is committed. If the process recovers from the file,
      then dies between the two, the file is gone while the plan is still on disk; unless a wallet
      shows the effect, the action that was performed is booked as failed. */
  lemma SecondCrashLosesTheResult(env: Env, t: TickState, l: Local, s: Sys, polls: seq<Poll>)
    requires Base(env, t, l) && Safe(env, s) && InsideSlot(true, env, t, l, ScriptOf(env, t, l), s)
    requires s.proc.Slot? && s.proc.pc.Head? && s.proc.t.plan.Some? && s.proc.t.receipt.None?
    requires s.proc.t.plan.value.id in s.disk.files
    requires PlainText(s.proc.t.plan.value.action, s.disk.files[s.proc.t.plan.value.id])
    requires AtHead(env, s, []).proc.Slot? && !AtTickEnd(s.proc.t)
    requires WaitFor(s.proc.t.plan.value, polls, None).NothingSeen?
    ensures s.proc.t.plan.value.actor < |s.proc.local.agents|
    ensures var plan := s.proc.t.plan.value;
            var s' := Exec(env, s, [GO, GO, Crash, Restart, Advance(polls, 0, None), GO]);
            && s'.world == s.world
            && s'.proc.Slot? && s'.disk.snapshot == Some(InTick(s'.proc.t, s'.proc.local))
            && s'.proc.t == Close(BookFailure(s.proc.t, s.proc.local, plan, UNRESOLVED).0)
            && Open(env, t, l) && s'.proc.t.counts != DirectSlot(env, t, l).0.counts
  {
    var s1 := RecoveryCommits(env, t, l, s);
    SecondCrashRun(env, s, s1, polls);
    CountLost(env, t, l, s);
  }

  lemma CountLost(env: Env, t: TickState, l: Local, s: Sys)
    requires Base(env, t, l) && Safe(env, s) && InsideSlot(true, env, t, l, ScriptOf(env, t, l), s)
    requires s.proc.Slot? && s.proc.pc.Head? && s.proc.t.plan.Some? && s.proc.t.receipt.None?
    ensures Open(env, t, l) && s.proc.t.plan.value.actor < |s.proc.local.agents|
    ensures BookFailure(s.proc.t, s.proc.local, s.proc.t.plan.value, UNRESOLVED).0.counts
            != DirectSlot(env, t, l).0.counts
  {
    ScriptIsWf(env, t, l);
    var c := ScriptOf(env, t, l).value;
    GivingUpLosesTheCount(c.t, s.proc.local, c.l, c.plan, c.attempt);
  }

  lemma SecondCrashRun(env: Env, s: Sys, s1: Sys, polls: seq<Poll>)
    requires Sound(env) && Safe(env, s) && s.proc.Slot? && s.proc.pc.Head? && !AtTickEnd(s.proc.t)
    requires s.proc.t.plan.Some? && s.proc.t.receipt.None?
    requires WaitFor(s.proc.t.plan.value, polls, None).NothingSeen?
    requires s1 == Step(env, GO, s) && Safe(env, s1) && s1.disk == s.disk && s1.world == s.world
    requires s1.proc.Slot? && s1.proc.pc.Committing? && s1.proc.t.plan == s.proc.t.plan
    ensures s.proc.t.plan.value.actor < |s.proc.local.agents|
    ensures var (t, l) := BookFailure(s.proc.t, s.proc.local, s.proc.t.plan.value, UNRESOLVED);
            var s' := Exec(env, s, [GO, GO, Crash, Restart, Advance(polls, 0, None), GO]);
            s'.world == s.world && s'.proc == Slot(Head, Close(t), l)
            && s'.disk.snapshot == Some(InTick(Close(t), l))
  {
    var Slot(_, d, dl) := s.proc;
    var rest := [Advance(polls, 0, None), GO];
    var whole := [GO, GO, Crash, Restart, Advance(polls, 0, None), GO];
    assert whole == [GO] + ([GO] + ([Crash] + ([Restart] + rest)));
    Unroll(env, s, whole);
    assert whole[1..] == [GO] + ([Crash] + ([Restart] + rest));
    var s2 := CommitClearsFile(env, s1, [Crash] + ([Restart] + rest));
    var s4 := s2.(proc := Slot(Head, d, dl));
    CrashThenRestart(env, s2, d, dl, rest);
    GivingUpRun(env, s4, polls);
  }

  lemma RecoveryCommits(env: Env, t: TickState, l: Local, s: Sys) returns (s1: Sys)
    requires Base(env, t, l) && Safe(env, s) && InsideSlot(true, env, t, l, ScriptOf(env, t, l), s)
    requires s.proc.Slot? && s.proc.pc.Head? && s.proc.t.plan.Some? && s.proc.t.receipt.None?
    requires s.proc.t.plan.value.id in s.disk.files
    requires PlainText(s.proc.t.plan.value.action, s.disk.files[s.proc.t.plan.value.id])
    requires AtHead(env, s, []).proc.Slot?
    ensures s1 == Step(env, GO, s) && Safe(env, s1) && s1.disk == s.disk && s1.world == s.world
    ensures s1.proc.Slot? && s1.proc.pc.Committing? && s1.proc.t.plan == s.proc.t.plan
  {
    s1 := AtHead(env, s, []);
    HeadIsSafe(env, s, []);
    HeadMoveMatches(true, env, t, l, s, GO);
    ScriptIsWf(env, t, l);
    MoveIsGood(env, s.proc.t, s.proc.local, s.disk.files, []);
  }

  lemma CommitClearsFile(env: Env, s1: Sys, rest: seq<Event>) returns (s2: Sys)
    requires Sound(env) && Safe(env, s1) && s1.proc.Slot? && s1.proc.pc.Committing?
    ensures Safe(env, s2) && Exec(env, s1, [GO] + rest) == Exec(env, s2, rest)
    ensures s2.proc.Slot? && s2.world == s1.world
    ensures s2.disk == s1.disk.(files := s1.disk.files - {s1.proc.t.plan.value.id})
  {
    s2 := AtCommitting(env, s1);
    SlotIsSafe(env, s1, []);
    Unroll(env, s1, [GO] + rest);
    assert ([GO] + rest)[1..] == rest;
  }

  lemma CrashThenRestart(env: Env, s: Sys, d: TickState, dl: Local, rest: seq<Event>)
    requires Sound(env) && Safe(env, s) && s.proc.Slot? && s.disk.snapshot == Some(InTick(d, dl))
    ensures Safe(env, s.(proc := Slot(Head, d, dl)))
    ensures Exec(env, s, [Crash] + ([Restart] + rest)) == Exec(env, s.(proc := Slot(Head, d, dl)), rest)
  {
    var down := s.(proc := Down);
    Unroll(env, s, [Crash] + ([Restart] + rest));
    assert ([Crash] + ([Restart] + rest))[1..] == [Restart] + rest;
    Unroll(env, down, [Restart] + rest);
    assert ([Restart] + rest)[1..] == rest;
  }

  lemma GivingUpRun(env: Env, s: Sys, polls: seq<Poll>)
    requires Sound(env) && Safe(env, s) && s.proc.Slot? && s.proc.pc.Head? && !AtTickEnd(s.proc.t)
    requires s.proc.t.plan.Some? && s.proc.t.receipt.None? && !Seen(s.proc.t.plan.value, s.disk.files, polls)
    ensures s.proc.t.plan.value.actor < |s.proc.local.agents|
    ensures var (t, l) := BookFailure(s.proc.t, s.proc.local, s.proc.t.plan.value, UNRESOLVED);
            var s' := Exec(env, s, [Advance(polls, 0, None), GO]);
            s'.world == s.world && s'.proc == Slot(Head, Close(t), l)
            && s'.disk.snapshot == Some(InTick(Close(t), l))
  {
    var (t, l) := BookFailure(s.proc.t, s.proc.local, s.proc.t.plan.value, UNRESOLVED);
    var e := Advance(polls, 0, None);
    SlotKeepsWf(env, s, polls);
    var s1 := s.(proc := Slot(Cleared, t, l));
    assert s1 == AtHead(env, s, polls);
    Unroll(env, s, [e, GO]);
    assert [e, GO][1..] == [GO];
    Unroll(env, s1, [GO]);
  }

  // ---------------------------------------------------------------- a result nobody can read

  /** Rebuilding a receipt happens outside the slot's exception handler. If the persisted text does not
      parse, every restart dies on it: no history whatever moves the disk or the world again. Direct
      execution of a pass action that prints such text fails its slot and moves on. */
  lemma {:induction false} UnreadableResultIsFatal(env: Env, s: Sys, d: TickState, dl: Local, history: seq<Event>)
    requires Sound(env) && Safe(env, s) && s.disk.snapshot == Some(InTick(d, dl))
    requires d.plan.Some? && d.receipt.None? && !AtTickEnd(d) && d.plan.value.id in s.disk.files
    requires RebuildReceipt(env, d, d.plan.value, dl, s.disk.files[d.plan.value.id]).Failure?
    requires s.proc.Down? || s.proc == Slot(Head, d, dl)
    ensures var s' := Exec(env, s, history);
            s'.disk == s.disk && s'.world == s.world && (s'.proc.Down? || s'.proc == Slot(Head, d, dl))
    decreases |history|
  {
    if history != [] {
      StepIsSafe(env, history[0], s);
      UnreadableStep(env, s, d, dl, history[0]);
      UnreadableResultIsFatal(env, Step(env, history[0], s), d, dl, history[1..]);
    }
  }

  lemma UnreadableStep(env: Env, s: Sys, d: TickState, dl: Local, e: Event)
    requires Sound(env) && Safe(env, s) && s.disk.snapshot == Some(InTick(d, dl))
    requires d.plan.Some? && d.receipt.None? && !AtTickEnd(d) && d.plan.value.id in s.disk.files
    requires RebuildReceipt(env, d, d.plan.value, dl, s.disk.files[d.plan.value.id]).Failure?
    requires s.proc.Down? || s.proc == Slot(Head, d, dl)
    ensures var s' := Step(env, e, s);
            s'.disk == s.disk && s'.world == s.world && (s'.proc.Down? || s'.proc == Slot(Head, d, dl))
  {
  }

  lemma UnreadableResultOnlyFailsDirectly(env: Env, t: TickState, plan: Plan, l: Local)
    requires Sound(env) && WfTick(env, t) && WfLocal(env, l) && plan.actor < env.agentCount
    requires Decide(env, t, plan, l).Issue? && env.reply(plan.id).Printed?
    requires MintLikeAction(plan.action) || plan.action == Transfer
    ensures RebuildReceipt(env, t, plan, l, Strip(env.reply(plan.id).stdout)).Failure? <==>
              Attempt(env, t, plan, l).Failure?
  {
    DecisionInRange(env, t, plan, l);
    RebuildIsFaithful(env, t, plan, l, env.reply(plan.id).stdout);
  }

  /** A payment succeeds whatever was printed, and rebuilds exactly when the text names a transaction:
      text without one is fatal after a crash and harmless without. */
  lemma UnreadablePaymentSucceedsDirectly(env: Env, t: TickState, plan: Plan, l: Local)
    requires Sound(env) && WfTick(env, t) && WfLocal(env, l) && plan.actor < env.agentCount
    requires Decide(env, t, plan, l).Issue? && env.reply(plan.id).Printed?
    requires plan.action == SendBalance || plan.action == SpendBalance
    ensures Attempt(env, t, plan, l).Success?
    ensures RebuildReceipt(env, t, plan, l, Strip(env.reply(plan.id).stdout)).Failure? <==>
              ExtractTxid(Strip(env.reply(plan.id).stdout)).None?
  {
    var raw := Strip(env.reply(plan.id).stdout);
    StripIdempotent(env.reply(plan.id).stdout);
    assert raw == [] ==> FirstTxid(raw, 0).None?;
  }

  // ---------------------------------------------------------------- when probes can be trusted

  function IdIn(action: Action, raw: string): Option<string> {
    if MintLikeAction(action) then ExtractInscriptionId(raw) else ExtractTxid(raw)
  }

  /** Polls of a wallet in which, besides what was there when the slot was planned, every view read
      shows at most this effect, and some view shows it. */
  ghost predicate ShowsEffect(plan: Plan, polls: seq<Poll>, id: string)
    requires plan.baseline.Some?
  {
    && (forall k | 0 <= k < |polls| && polls[k].Read? :: ShowsOnly(plan, polls[k].v, Some(id)))
    && (exists k | 0 <= k < |polls| :: polls[k].Read? && Lists(plan, polls[k].v, id))
  }

  /** Whatever polls fail or come too early, the wait then ends with the id. */
  lemma EffectIsFound(plan: Plan, polls: seq<Poll>, id: string)
    requires plan.baseline.Some? && ShowsEffect(plan, polls, id)
    ensures WaitFor(plan, polls, None) == Resolved(id)
  {
    WaitMeaning(plan, polls, None);
    var k :| 0 <= k < |polls| && polls[k].Read? && Lists(plan, polls[k].v, id);
    ProbeTellsTheTruth(plan, polls[k].v, Some(id));
    assert PollResult(plan, polls[k]).Found?;
    var x := WaitFor(plan, polls, None).text;
    assert WaitFor(plan, polls, None) == Resolved(x);
    var j :| 0 <= j < |polls| && PollResult(plan, polls[j]) == Found(x);
    ProbeTellsTheTruth(plan, polls[j].v, Some(id));
  }

  /** Polling an otherwise quiet wallet that at some poll shows the effect of this slot's command: the
      wait ends with the truth that crash refinement asks for. */
  lemma QuietWalletIsTruthful(plan: Plan, decision: Decision, reply: Reply, polls: seq<Poll>)
    requires decision.Issue? && reply.Printed? && PlainText(plan.action, Strip(reply.stdout))
    requires plan.baseline.Some? && IdIn(plan.action, Strip(reply.stdout)).Some?
    requires ShowsEffect(plan, polls, IdIn(plan.action, Strip(reply.stdout)).value)
    ensures var w := WaitFor(plan, polls, None);
            w.Resolved? && Truthful(plan, decision, reply, w.text)
  {
    var raw := Strip(reply.stdout);
    EffectIsFound(plan, polls, IdIn(plan.action, raw).value);
    ExtractedIsStripped(raw);
    StripIdempotent(reply.stdout);
    if MintLikeAction(plan.action) {
      ExtractInscriptionIdIdempotent(raw);
    } else {
      ExtractTxidIdempotent(raw);
    }
  }
}
