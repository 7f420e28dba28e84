/** How often each tick is mined, over whole histories: once, and once more for every process that
    died between mining and the end of the tick. */
module Mining {
  import opened Wrappers
  import opened World
  import opened Probe
  import opened SlotProtocol
  import opened SlotSafety

  /** The disk has left tick k behind. */
  ghost predicate LeftBehind(s: Sys, k: nat) {
    match s.disk.snapshot
    case None => s.proc.Finished? && k <= s.proc.lastTick
    case Some(BetweenTicks(n, _)) => k < n
    case Some(InTick(t, _)) => k < t.tick
  }

  ghost predicate JustMined(s: Sys, k: nat) {
    s.proc.Mined? && s.proc.t.tick == k
  }

  /** This step kills the process that has mined tick k and not yet persisted the end of it. */
  ghost predicate DiesAfterMining(env: Env, s: Sys, e: Event, k: nat)
    requires Sound(env) && Wf(env, s)
  {
    JustMined(s, k) && Step(env, e, s).proc.Down?
  }

  /** How often that happens along a history. */
  ghost function Deaths(env: Env, s: Sys, history: seq<Event>, k: nat): nat
    requires Sound(env) && Wf(env, s)
    decreases |history|
  {
    if history == [] then 0
    else
      StepKeepsWf(env, history[0], s);
      (if DiesAfterMining(env, s, history[0], k) then 1 else 0)
      + Deaths(env, Step(env, history[0], s), history[1..], k)
  }

  /** Minings of tick k beyond the deaths so far. */
  ghost function Pending(s: Sys, k: nat): nat {
    if LeftBehind(s, k) || JustMined(s, k) then 1 else 0
  }

  ghost function TimesMined(s: Sys, k: nat): nat {
    multiset(s.world.minedTicks)[k]
  }

  lemma MoveKeepsPending(env: Env, s: Sys, m: HeadMove, k: nat)
    requires Safe(env, s) && s.proc.Slot? && s.proc.pc.Head? && GoodMove(s.proc.t, s.proc.local, m)
    ensures Pending(DoMove(s, m), k) == Pending(s, k) && DoMove(s, m).world == s.world
  {
  }

  lemma SlotKeepsPending(env: Env, s: Sys, polls: seq<Poll>, k: nat)
    requires Sound(env) && Safe(env, s) && s.proc.Slot?
    ensures var s' := AtSlot(env, s, polls);
            Pending(s', k) == Pending(s, k) && s'.world.minedTicks == s.world.minedTicks
  {
    if s.proc.pc.Head? {
      MoveIsGood(env, s.proc.t, s.proc.local, s.disk.files, polls);
      MoveKeepsPending(env, s, MoveAtHead(env, s.proc.t, s.proc.local, s.disk.files, polls), k);
    }
  }

  lemma StepCounts(env: Env, e: Event, s: Sys, k: nat)
    requires Sound(env) && Safe(env, s) && k >= 1
    ensures var s' := Step(env, e, s);
            TimesMined(s', k) + Pending(s, k)
              == TimesMined(s, k) + Pending(s', k) + (if DiesAfterMining(env, s, e, k) then 1 else 0)
  {
    if e.Advance? && s.proc.Slot? {
      SlotKeepsPending(env, s, e.polls, k);
    }
  }

  lemma {:induction false} HistoryCounts(env: Env, s: Sys, history: seq<Event>, k: nat)
    requires Sound(env) && Safe(env, s) && k >= 1
    ensures var s' := Exec(env, s, history);
            TimesMined(s', k) + Pending(s, k) == TimesMined(s, k) + Pending(s', k) + Deaths(env, s, history, k)
    decreases |history|
  {
    if history != [] {
      StepCounts(env, history[0], s, k);
      StepIsSafe(env, history[0], s);
      HistoryCounts(env, Step(env, history[0], s), history[1..], k);
    }
  }

  /** Over every history each tick is mined once for every process that died after mining it, and once
      more if the disk has left it behind or its process is still alive. So a tick left behind was
      mined exactly once if and only if no process died there. */
  lemma MinedOncePerDeath(env: Env, history: seq<Event>, k: nat)
    requires Sound(env) && k >= 1
    ensures var s := Exec(env, Start(env), history);
            var deaths := Deaths(env, Start(env), history, k);
            && TimesMined(s, k) == deaths + (if LeftBehind(s, k) || JustMined(s, k) then 1 else 0)
            && (LeftBehind(s, k) ==> (TimesMined(s, k) == 1 <==> deaths == 0))
  {
    HistoryCounts(env, Start(env), history, k);
  }

  lemma {:induction false} FinishedLeavesNothing(env: Env, s: Sys, history: seq<Event>)
    requires Sound(env) && Wf(env, s) && (s.proc.Finished? ==> s.disk.snapshot.None?)
    ensures var s' := Exec(env, s, history); s'.proc.Finished? ==> s'.disk.snapshot.None?
    decreases |history|
  {
    if history != [] {
      StepKeepsWf(env, history[0], s);
      StepFinishesClean(env, s, history[0]);
      FinishedLeavesNothing(env, Step(env, history[0], s), history[1..]);
    }
  }

  lemma StepFinishesClean(env: Env, s: Sys, e: Event)
    requires Sound(env) && Wf(env, s) && (s.proc.Finished? ==> s.disk.snapshot.None?)
    ensures var s' := Step(env, e, s); s'.proc.Finished? ==> s'.disk.snapshot.None?
  {
  }

  /** In particular every tick left behind was mined, and so was every tick of a finished batch. */
  lemma MinedAtLeastOnce(env: Env, history: seq<Event>, k: nat)
    requires Sound(env) && 1 <= k
    ensures var s := Exec(env, Start(env), history);
            LeftBehind(s, k) || (s.proc.Finished? && k <= s.proc.lastTick) ==> k in s.world.minedTicks
  {
    FinishedLeavesNothing(env, Start(env), history);
    MinedOncePerDeath(env, history, k);
  }

  // ---------------------------------------------------------------- the length of a batch

  /** Ticks of the batch are numbered from one, up to its length if it has one. */
  ghost predicate InBatch(env: Env, k: int) {
    1 <= k && (env.blocks > 0 ==> k <= env.blocks)
  }

  ghost predicate Within(env: Env, s: Sys) {
    && (forall k | k in s.world.minedTicks :: InBatch(env, k))
    && (match s.disk.snapshot
        case None => true
        case Some(BetweenTicks(n, _)) => InBatch(env, n - 1)
        case Some(InTick(t, _)) => InBatch(env, t.tick))
    && (match s.proc
        case Down => true
        case Finished(n) => env.blocks > 0 && n == env.blocks
        case Top(n, _) => n == 0 || InBatch(env, n)
        case Slot(_, t, _) => InBatch(env, t.tick)
        case Drained(t, _) => InBatch(env, t.tick)
        case Mined(t, _) => InBatch(env, t.tick))
  }

  /** A new tick is begun exactly while the batch is not at its length. */
  lemma BatchStops(env: Env, s: Sys, height: nat)
    requires Sound(env) && Wf(env, s) && s.proc.Top?
    ensures var s' := AtTop(env, s, height);
            var over := env.blocks > 0 && s.proc.tick >= env.blocks;
            && (over <==> s'.proc.Finished?) && (!over <==> s'.proc.Slot?)
            && (over ==> s'.disk.snapshot.None? && s'.proc.lastTick == s.proc.tick)
            && (!over ==> s'.proc.t.tick == s.proc.tick + 1 && s'.disk.snapshot == Some(InTick(s'.proc.t, s'.proc.local)))
            && s'.world == s.world && s'.disk.files == s.disk.files
  {
  }

  lemma SlotStaysWithin(env: Env, s: Sys, polls: seq<Poll>)
    requires Sound(env) && Safe(env, s) && Within(env, s) && s.proc.Slot?
    ensures Within(env, AtSlot(env, s, polls))
  {
    if s.proc.pc.Head? {
      MoveIsGood(env, s.proc.t, s.proc.local, s.disk.files, polls);
      MoveStaysWithin(env, s, MoveAtHead(env, s.proc.t, s.proc.local, s.disk.files, polls));
    }
  }

  lemma MoveStaysWithin(env: Env, s: Sys, m: HeadMove)
    requires Safe(env, s) && Within(env, s) && s.proc.Slot? && s.proc.pc.Head? && GoodMove(s.proc.t, s.proc.local, m)
    ensures Within(env, DoMove(s, m))
  {
  }

  lemma StepStaysWithin(env: Env, e: Event, s: Sys)
    requires Sound(env) && Safe(env, s) && Within(env, s)
    ensures Within(env, Step(env, e, s))
  {
    if e.Advance? && s.proc.Slot? {
      SlotStaysWithin(env, s, e.polls);
    } else if e.Advance? && s.proc.Top? {
      BatchStops(env, s, e.height);
    }
  }

  lemma {:induction false} HistoryStaysWithin(env: Env, s: Sys, history: seq<Event>)
    requires Sound(env) && Safe(env, s) && Within(env, s)
    ensures Within(env, Exec(env, s, history))
    decreases |history|
  {
    if history != [] {
      StepStaysWithin(env, history[0], s);
      StepIsSafe(env, history[0], s);
      HistoryStaysWithin(env, Step(env, history[0], s), history[1..]);
    }
  }

  /** Over every history only ticks of the batch are mined, and when it is over, exactly those: an endless
      batch is never over. */
  lemma FinishedBatchIsComplete(env: Env, history: seq<Event>, k: nat)
    requires Sound(env)
    ensures var s := Exec(env, Start(env), history);
            && (k in s.world.minedTicks ==> 1 <= k && (env.blocks > 0 ==> k <= env.blocks))
            && (s.proc.Finished? ==> env.blocks > 0 && (k in s.world.minedTicks <==> 1 <= k <= env.blocks))
  {
    HistoryStaysWithin(env, Start(env), history);
    if k >= 1 {
      MinedAtLeastOnce(env, history, k);
    }
  }

  // ---------------------------------------------------------------- a history that mines twice

  /** Whatever the process has done since, a crash while the last snapshot is that of a tick with no
      slot left makes the next process mine for that tick. */
  lemma EndedTickMinesAfterCrash(env: Env, s: Sys, height: nat)
    requires Sound(env) && Wf(env, s) && !s.proc.Finished?
    requires s.disk.snapshot.Some? && s.disk.snapshot.value.InTick?
    requires s.disk.snapshot.value.t.plan.None? && AtTickEnd(s.disk.snapshot.value.t)
    ensures var go := Advance([], height, None);
            Exec(env, s, [Crash, Restart, go, go]).world.minedTicks
              == s.world.minedTicks + [s.disk.snapshot.value.t.tick]
  {
    var go := Advance([], height, None);
    var s1 := Step(env, Crash, s);
    var s2 := Step(env, Restart, s1);
    var s3 := Step(env, go, s2);
    Unroll(env, s, [Crash, Restart, go, go]);
    Unroll(env, s1, [Restart, go, go]);
    Unroll(env, s2, [go, go]);
    Unroll(env, s3, [go]);
  }

  lemma EmptyTickStarts(env: Env, height: nat) returns (s: Sys)
    requires Sound(env) && env.drawSlots(1, height, |IdsBelow(env.grow(1, env.initial.activeCount))|) == 0
    ensures Wf(env, s) && s.proc.Slot? && s.proc.pc.Head? && s.world.minedTicks == []
    ensures var t := s.proc.t; t.tick == 1 && t.plan.None? && AtTickEnd(t) && s.disk.snapshot == Some(InTick(t, s.proc.local))
    ensures var go := Advance([], height, None);
            forall more :: Exec(env, Start(env), [Restart, go] + more) == Exec(env, s, more)
  {
    var go := Advance([], height, None);
    var s0 := Start(env);
    var s1 := Step(env, Restart, s0);
    s := Step(env, go, s1);
    StepKeepsWf(env, Restart, s0);
    StepKeepsWf(env, go, s1);
    forall more
      ensures Exec(env, s0, [Restart, go] + more) == Exec(env, s, more)
    {
      Unroll(env, s0, [Restart, go] + more);
      assert ([Restart, go] + more)[1..] == [go] + more;
      Unroll(env, s1, [go] + more);
      assert ([go] + more)[1..] == more;
    }
  }

  lemma EmptyTickMines(env: Env, s: Sys, e: Event) returns (r: Sys)
    requires Sound(env) && Wf(env, s) && e.Advance?
    requires s.proc.Slot? && s.proc.pc.Head? && s.proc.t.plan.None? && AtTickEnd(s.proc.t)
    ensures Wf(env, r) && r.disk == s.disk && r.proc.Mined?
    ensures r.world.minedTicks == s.world.minedTicks + [s.proc.t.tick]
    ensures forall more :: Exec(env, s, [e, e] + more) == Exec(env, r, more)
  {
    var s1 := Step(env, e, s);
    r := Step(env, e, s1);
    StepKeepsWf(env, e, s);
    StepKeepsWf(env, e, s1);
    forall more
      ensures Exec(env, s, [e, e] + more) == Exec(env, r, more)
    {
      Unroll(env, s, [e, e] + more);
      assert ([e, e] + more)[1..] == [e] + more;
      Unroll(env, s1, [e] + more);
      assert ([e] + more)[1..] == more;
    }
  }

  /** So a first tick without slots that dies after mining mines twice. */
  lemma MiningCanRepeat(env: Env, height: nat)
    requires Sound(env) && env.drawSlots(1, height, |IdsBelow(env.grow(1, env.initial.activeCount))|) == 0
    ensures var go := Advance([], height, None);
            Exec(env, Start(env), [Restart, go, go, go, Crash, Restart, go, go]).world.minedTicks == [1, 1]
  {
    var go := Advance([], height, None);
    var tail := [Crash, Restart, go, go];
    var s := EmptyTickStarts(env, height);
    assert [Restart, go, go, go, Crash, Restart, go, go] == [Restart, go] + ([go, go] + tail);
    var r := EmptyTickMines(env, s, go);
    EndedTickMinesAfterCrash(env, r, height);
  }
}
