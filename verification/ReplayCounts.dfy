/** Over a whole interrupted tick the counters exceed the uninterrupted ones by exactly one count for
    each slot that was committed from a replayed receipt. */
module ReplayCounts {
  import opened Wrappers
  import opened World
  import opened Actions
  import opened Probe
  import opened SlotProtocol
  import opened SlotSafety
  import opened CrashRefinement

  // ---------------------------------------------------------------- shifted counters

  function Shift(m: Metrics, bag: multiset<Metric>): Metrics {
    map k | k in m.Keys + (set x | x in bag) :: Count(m, k) + bag[k]
  }

  function ShiftLocal(l: Local, bag: multiset<Metric>): Local {
    l.(metrics := Shift(l.metrics, bag))
  }

  function BumpLocal(l: Local, k: Metric): Local {
    l.(metrics := Bump(l.metrics, k, 1))
  }

  lemma ShiftBump(m: Metrics, bag: multiset<Metric>, k: Metric)
    ensures Bump(Shift(m, bag), k, 1) == Shift(Bump(m, k, 1), bag)
    ensures Bump(Shift(m, bag), k, 1) == Shift(m, bag + multiset{k})
  {
    ShiftIsShifted(m, bag);
    ShiftIsShifted(Bump(m, k, 1), bag);
    ShiftIsShifted(m, bag + multiset{k});
    BumpThenShift(m, Shift(m, bag), bag, k, Shift(Bump(m, k, 1), bag));
    BumpIsShift(m, Shift(m, bag), bag, k, Shift(m, bag + multiset{k}));
  }

  ghost predicate Shifted(m: Metrics, bag: multiset<Metric>, r: Metrics) {
    forall k :: (k in r <==> k in m || bag[k] > 0) && Count(r, k) == Count(m, k) + bag[k]
  }

  lemma ShiftIsShifted(m: Metrics, bag: multiset<Metric>)
    ensures Shifted(m, bag, Shift(m, bag))
  {
  }

  lemma SameMetrics(a: Metrics, b: Metrics)
    requires forall k :: (k in a <==> k in b) && Count(a, k) == Count(b, k)
    ensures a == b
  {
    assert a.Keys == b.Keys;
    forall k | k in a
      ensures a[k] == b[k]
    {
      assert Count(a, k) == Count(b, k);
    }
  }

  lemma BumpThenShift(m: Metrics, shifted: Metrics, bag: multiset<Metric>, k: Metric, r: Metrics)
    requires Shifted(m, bag, shifted) && Shifted(Bump(m, k, 1), bag, r)
    ensures Bump(shifted, k, 1) == r
  {
    SameMetrics(Bump(shifted, k, 1), r);
  }

  lemma BumpIsShift(m: Metrics, shifted: Metrics, bag: multiset<Metric>, k: Metric, r: Metrics)
    requires Shifted(m, bag, shifted) && Shifted(m, bag + multiset{k}, r)
    ensures Bump(shifted, k, 1) == r
  {
    SameMetrics(Bump(shifted, k, 1), r);
  }

  lemma ShiftNothing(l: Local)
    ensures ShiftLocal(l, multiset{}) == l
  {
    assert Shift(l.metrics, multiset{}) == l.metrics;
  }

  lemma PlanShifts(env: Env, t: TickState, l: Local, bag: multiset<Metric>)
    requires Sound(env) && WfTick(env, t) && t.available != {} && WfLocal(env, l)
    ensures PlanFor(env, t, ShiftLocal(l, bag)) == (PlanFor(env, t, l).0, ShiftLocal(PlanFor(env, t, l).1, bag))
  {
    PlanIgnoresMetrics(env, t, ShiftLocal(l, bag), l, false);
  }

  lemma CompleteShifts(env: Env, t: TickState, plan: Plan, req: Request, l: Local, raw: string, bag: multiset<Metric>)
    requires WfLocal(env, l) && plan.actor < env.agentCount && RequestInRange(env, req)
    ensures var x, y := Complete(env, t, plan, req, l, raw), Complete(env, t, plan, req, ShiftLocal(l, bag), raw);
            y == if x.Success? then Success((ShiftLocal(x.value.0, bag), x.value.1)) else x
  {
    ShiftBump(l.metrics, bag, RequestMetric(req));
  }

  lemma SkipShifts(plan: Plan, d: Decision, l: Local, bag: multiset<Metric>)
    requires d.SkipAction?
    ensures CompleteSkip(plan, d, ShiftLocal(l, bag))
      == (ShiftLocal(CompleteSkip(plan, d, l).0, bag), CompleteSkip(plan, d, l).1)
  {
    ShiftBump(l.metrics, bag, Skipped);
  }

  function ShiftResult(a: Result<(Local, Outcome), string>, bag: multiset<Metric>): Result<(Local, Outcome), string> {
    if a.Success? then Success((ShiftLocal(a.value.0, bag), a.value.1)) else a
  }

  lemma AttemptShifts(env: Env, t: TickState, plan: Plan, l: Local, bag: multiset<Metric>)
    requires Sound(env) && WfTick(env, t) && WfLocal(env, l) && plan.actor < env.agentCount
    ensures Attempt(env, t, plan, ShiftLocal(l, bag)) == ShiftResult(Attempt(env, t, plan, l), bag)
  {
    DecideIgnoresMetrics(env, t, plan, ShiftLocal(l, bag), l, false);
    DecisionInRange(env, t, plan, l);
    match Decide(env, t, plan, l)
    case SkipAction(detail, expectation) => SkipShifts(plan, SkipAction(detail, expectation), l, bag);
    case Issue(request) =>
      if env.reply(plan.id).Printed? {
        CompleteShifts(env, t, plan, request, l, OutputText.Strip(env.reply(plan.id).stdout), bag);
      }
  }

  lemma EndShifts(t: TickState, l: Local, plan: Plan, a: Result<(Local, Outcome), string>, bag: multiset<Metric>)
    requires plan.actor < |l.agents| && (a.Success? ==> plan.actor < |a.value.0.agents|)
    ensures EndOf(t, ShiftLocal(l, bag), plan, ShiftResult(a, bag))
      == (EndOf(t, l, plan, a).0, ShiftLocal(EndOf(t, l, plan, a).1, bag))
  {
    if a.Failure? && FailMetric(plan.action).Some? {
      ShiftBump(l.metrics, bag, FailMetric(plan.action).value);
    }
  }

  /** The uninterrupted slot does not look at the counters. */
  lemma SlotShifts(env: Env, t: TickState, l: Local, bag: multiset<Metric>)
    requires Sound(env) && WfTick(env, t) && Open(env, t, l)
    ensures DirectSlot(env, t, ShiftLocal(l, bag)) == (DirectSlot(env, t, l).0, ShiftLocal(DirectSlot(env, t, l).1, bag))
  {
    var (t1, l1) := PlanFor(env, t, l);
    var plan := t1.plan.value;
    PlanShifts(env, t, l, bag);
    AttemptShifts(env, t1, plan, l1, bag);
    EndShifts(CountAction(t1, plan.action), l1, plan, Attempt(env, t1, plan, l1), bag);
  }

  lemma NextShifts(env: Env, t: TickState, l: Local, bag: multiset<Metric>)
    requires Sound(env)
    ensures var x, y := NextSlot(env)(t, l), NextSlot(env)(t, ShiftLocal(l, bag));
            y == if x.Some? then Some((x.value.0, ShiftLocal(x.value.1, bag))) else None
  {
    if WfTick(env, t) && Open(env, t, l) {
      SlotShifts(env, t, l, bag);
    }
  }

  ghost predicate Shifts(next: SlotFunction, bag: multiset<Metric>) {
    forall u, m :: ShiftsAt(next, u, m, bag)
  }

  ghost predicate ShiftsAt(next: SlotFunction, t: TickState, l: Local, bag: multiset<Metric>) {
    match next(t, l)
    case None => next(t, ShiftLocal(l, bag)).None?
    case Some((u, m)) => next(t, ShiftLocal(l, bag)) == Some((u, ShiftLocal(m, bag)))
  }

  lemma {:induction false} IterateShifts(next: SlotFunction, t: TickState, l: Local, k: nat, bag: multiset<Metric>)
    requires Shifts(next, bag)
    ensures var (u, m) := Iterate(next, t, l, k); Iterate(next, t, ShiftLocal(l, bag), k) == (u, ShiftLocal(m, bag))
    decreases k
  {
    if k > t.nextSlot {
      IterateShifts(next, t, l, k - 1, bag);
      var (u, m) := Iterate(next, t, l, k - 1);
      assert ShiftsAt(next, u, m, bag);
    }
  }

  lemma DirectShifts(env: Env, t: TickState, l: Local, k: nat, bag: multiset<Metric>)
    requires Sound(env)
    ensures var (u, m) := Direct(env, t, l, k); Direct(env, t, ShiftLocal(l, bag), k) == (u, ShiftLocal(m, bag))
  {
    forall u, m
      ensures ShiftsAt(NextSlot(env), u, m, bag)
    {
      NextShifts(env, u, m, bag);
    }
    IterateShifts(NextSlot(env), t, l, k, bag);
  }

  // ---------------------------------------------------------------- following replays along a history

  /** The counter a living process has counted again, if it is replaying a receipt, and the counters of
      the slots committed that way. */
  datatype Track = Track(live: Option<Metric>, counted: multiset<Metric>)

  ghost function MetricOf(r: Receipt): Metric {
    if r.deltas == map[] then Skipped else var k :| k in r.deltas; k
  }

  /** This step replays a persisted receipt. */
  ghost predicate Replaying(env: Env, s: Sys, e: Event)
    requires Sound(env) && Wf(env, s)
  {
    && e.Advance? && s.proc.Slot? && s.proc.pc.Head? && s.proc.t.receipt.Some?
    && Step(env, e, s).proc.Slot? && Step(env, e, s).proc.pc.Committing?
  }

  /** A replay counts when its slot is committed, and is forgotten when the process dies before. */
  ghost function Follow(env: Env, s: Sys, e: Event, r: Track): Track
    requires Sound(env) && Wf(env, s)
  {
    if e.Crash? then r.(live := None)
    else if Replaying(env, s, e) then r.(live := Some(MetricOf(s.proc.t.receipt.value)))
    else if e.Advance? && s.proc.Slot? && s.proc.pc.Cleared? && r.live.Some? then
      Track(None, r.counted + multiset{r.live.value})
    else r
  }

  ghost function FollowAll(env: Env, s: Sys, history: seq<Event>, r: Track): Track
    requires Sound(env) && Wf(env, s)
    decreases |history|
  {
    if history == [] then r
    else
      StepKeepsWf(env, history[0], s);
      FollowAll(env, Step(env, history[0], s), history[1..], Follow(env, s, history[0], r))
  }

  /** The counters of the slots that a history commits from replayed receipts. */
  ghost function Replays(env: Env, s: Sys, history: seq<Event>): multiset<Metric>
    requires Sound(env) && Wf(env, s)
  {
    FollowAll(env, s, history, Track(None, multiset{})).counted
  }

  // ---------------------------------------------------------------- the invariant

  /** x is s without the count that the replay has added. */
  ghost predicate Unbumped(s: Sys, k: Metric, x: Sys) {
    && x.proc.Slot? && (x.proc.pc.Committing? || x.proc.pc.Cleared?)
    && s == x.(proc := Slot(x.proc.pc, x.proc.t, BumpLocal(x.proc.local, k)))
  }

  ghost predicate Shadow(env: Env, t0: TickState, l0: Local, s: Sys, k: Metric, x: Sys)
    requires Sound(env) && Between(env, t0.slots, t0, l0)
  {
    Unbumped(s, k, x) && Safe(env, x) && Refines(true, env, t0, l0, x)
  }

  ghost predicate Counted(env: Env, t0: TickState, l0: Local, s: Sys, r: Track)
    requires Sound(env) && Between(env, t0.slots, t0, l0)
  {
    LeftTick(s, t0.tick) ||
    (match r.live
     case None => Refines(true, env, t0, ShiftLocal(l0, r.counted), s)
     case Some(k) => exists x :: Shadow(env, t0, ShiftLocal(l0, r.counted), s, k, x))
  }

  // ---------------------------------------------------------------- a replay begins

  lemma ReplayMoves(env: Env, s: Sys, polls: seq<Poll>, after: Local, o: Outcome)
    requires Sound(env) && Wf(env, s) && s.proc.Slot? && s.proc.pc.Head? && !AtTickEnd(s.proc.t)
    requires s.proc.t.plan.Some? && s.proc.t.receipt.Some? && s.proc.t.plan.value.slot == s.proc.t.nextSlot
    requires ApplyReceipt(s.proc.t.plan.value, s.proc.t.receipt.value, s.proc.local) == Success((after, o))
    ensures AtHead(env, s, polls) == s.(proc := Slot(Committing(o), s.proc.t, after))
  {
  }

  lemma ReplayEnters(env: Env, t: TickState, l: Local, s: Sys, polls: seq<Poll>) returns (x: Sys)
    requires Base(env, t, l) && Safe(env, s) && InsideSlot(true, env, t, l, ScriptOf(env, t, l), s)
    requires s.proc.Slot? && s.proc.pc.Head? && s.proc.t.receipt.Some?
    ensures Unbumped(AtHead(env, s, polls), MetricOf(s.proc.t.receipt.value), x)
    ensures InsideSlot(true, env, t, l, ScriptOf(env, t, l), x) && x.disk == s.disk
    ensures x.proc.pc.Committing?
  {
    ScriptIsWf(env, t, l);
    var c := ScriptOf(env, t, l).value;
    RecordedState(env, t, l, c, s);
    var k := AttemptReceipted(env, c.t, c.plan, c.l);
    x := ReplayBumps(env, c, s, polls, k);
    ReplayIsInside(env, t, l, c, s, x);
  }

  /** At the top of the loop, what a persisted receipt and the state beside it are. */
  ghost predicate Recorded(c: Script, s: Sys) {
    && s.proc.Slot? && s.proc.t.plan == Some(c.plan) && s.proc.t.receipt.Some? && c.attempt.Success?
    && s.proc.local == c.attempt.value.0
    && BuildReceipt(c.plan, c.attempt.value.1, c.l.metrics, s.proc.local.metrics) == Success(s.proc.t.receipt.value)
    && !AtTickEnd(s.proc.t) && c.plan.slot == s.proc.t.nextSlot
  }

  lemma RecordedState(env: Env, t: TickState, l: Local, c: Script, s: Sys)
    requires Wf(env, s) && Open(env, t, l) && PlanAtSlot(c.t) && c.t == t.(plan := Some(c.plan))
    requires s.proc.Slot? && s.proc.t.receipt.Some? && s.disk.snapshot == Some(InTick(s.proc.t, s.proc.local))
    requires InsideSlot(true, env, t, l, Some(c), s)
    ensures Recorded(c, s)
  {
  }

  lemma ReplayBumps(env: Env, c: Script, s: Sys, polls: seq<Poll>, k: Metric) returns (x: Sys)
    requires Sound(env) && Wf(env, s) && Recorded(c, s) && s.proc.pc.Head?
    requires Receipted(c.plan, c.l, c.attempt.value.0, c.attempt.value.1, k)
    ensures var (after, o) := c.attempt.value;
            x == s.(proc := Slot(Committing(Outcome(o.detail, Meaningful(o.expectation), o.used)), s.proc.t, after))
    ensures Unbumped(AtHead(env, s, polls), MetricOf(s.proc.t.receipt.value), x)
  {
    var (after, o) := c.attempt.value;
    ReplayCountsTwice(c.plan, c.l, after, o, k);
    var o' := Outcome(o.detail, Meaningful(o.expectation), o.used);
    ReplayMoves(env, s, polls, BumpLocal(after, k), o');
    x := s.(proc := Slot(Committing(o'), s.proc.t, after));
  }

  lemma ReplayIsInside(env: Env, t: TickState, l: Local, c: Script, s: Sys, x: Sys)
    requires WfScript(env, c) && s.proc.Slot? && s.disk.snapshot == Some(InTick(s.proc.t, s.proc.local))
    requires s.proc.t.plan.Some? && s.proc.t.receipt.Some? && InsideSlot(true, env, t, l, Some(c), s)
    requires c.attempt.Success?
    requires var (after, o) := c.attempt.value;
             x == s.(proc := Slot(Committing(Outcome(o.detail, Meaningful(o.expectation), o.used)), s.proc.t, after))
    ensures InsideSlot(true, env, t, l, Some(c), x)
  {
  }

  lemma ShadowIsSafe(env: Env, s: Sys, k: Metric, x: Sys)
    requires Safe(env, s) && Unbumped(s, k, x)
    ensures Safe(env, x)
  {
  }

  lemma ReplayStarts(env: Env, t0: TickState, l0: Local, s: Sys, e: Event)
    requires Sound(env) && Between(env, t0.slots, t0, l0) && Safe(env, s)
    requires Refines(true, env, t0, l0, s) && !LeftTick(s, t0.tick)
    requires e.Advance? && s.proc.Slot? && s.proc.pc.Head? && s.proc.t.receipt.Some?
    ensures Replaying(env, s, e)
    ensures exists x :: Shadow(env, t0, l0, Step(env, e, s), MetricOf(s.proc.t.receipt.value), x)
  {
    var n := s.disk.snapshot.value.t.nextSlot;
    var (t, l) := Direct(env, t0, l0, n);
    DirectKeeps(env, t0, l0, n);
    var x := ReplayEnters(env, t, l, s, e.polls);
    StepIsSafe(env, e, s);
    ShadowIsSafe(env, Step(env, e, s), MetricOf(s.proc.t.receipt.value), x);
    assert Shadow(env, t0, l0, Step(env, e, s), MetricOf(s.proc.t.receipt.value), x);
  }

  // ---------------------------------------------------------------- a replay goes on

  lemma CommitsAlike(env: Env, s: Sys, k: Metric, x: Sys)
    requires Sound(env) && Safe(env, s) && Safe(env, x) && Unbumped(s, k, x) && x.proc.pc.Committing?
    ensures Unbumped(AtCommitting(env, s), k, AtCommitting(env, x))
  {
  }

  ghost predicate BumpedHead(s: Sys, k: Metric, x: Sys) {
    && x.proc.Slot? && x.proc.pc.Head? && x.proc.t.plan.None?
    && x.disk.snapshot == Some(InTick(x.proc.t, x.proc.local))
    && s == x.(proc := Slot(Head, x.proc.t, BumpLocal(x.proc.local, k)),
               disk := x.disk.(snapshot := Some(InTick(x.proc.t, BumpLocal(x.proc.local, k)))))
  }

  lemma ClosesAlike(env: Env, s: Sys, k: Metric, x: Sys)
    requires Sound(env) && Safe(env, s) && Safe(env, x) && Unbumped(s, k, x) && x.proc.pc.Cleared?
    ensures BumpedHead(AtCleared(env, s), k, AtCleared(env, x))
  {
  }

  lemma BumpIsOneShift(l: Local, k: Metric)
    ensures ShiftLocal(l, multiset{k}) == BumpLocal(l, k)
  {
    ShiftBump(l.metrics, multiset{}, k);
    ShiftNothing(l);
    assert multiset{} + multiset{k} == multiset{k};
  }

  lemma BumpedHeadInside(env: Env, t: TickState, l: Local, s: Sys, k: Metric, x: Sys)
    requires Base(env, t, l) && Base(env, t, BumpLocal(l, k)) && BumpedHead(s, k, x)
    requires InsideSlot(true, env, t, l, ScriptOf(env, t, l), x)
    ensures InsideSlot(true, env, t, BumpLocal(l, k), ScriptOf(env, t, BumpLocal(l, k)), s)
  {
  }

  lemma BumpedHeadRefines(env: Env, t0: TickState, l0: Local, s: Sys, k: Metric, x: Sys)
    requires Sound(env) && Between(env, t0.slots, t0, l0) && Between(env, t0.slots, t0, BumpLocal(l0, k))
    requires Refines(true, env, t0, l0, x) && BumpedHead(s, k, x)
    ensures Refines(true, env, t0, BumpLocal(l0, k), s)
  {
    if !LeftTick(x, t0.tick) {
      var n := x.disk.snapshot.value.t.nextSlot;
      var (t, l) := Direct(env, t0, l0, n);
      DirectKeeps(env, t0, l0, n);
      DirectKeeps(env, t0, BumpLocal(l0, k), n);
      DirectShifts(env, t0, l0, n, multiset{k});
      BumpIsOneShift(l0, k);
      BumpIsOneShift(l, k);
      BumpedHeadInside(env, t, l, s, k, x);
    }
  }

  lemma ReplayGoesOn(env: Env, t0: TickState, l0: Local, s: Sys, e: Event, k: Metric, x: Sys)
    requires Sound(env) && Between(env, t0.slots, t0, l0) && Safe(env, s) && Shadow(env, t0, l0, s, k, x)
    requires e.Advance? && s.proc.pc.Committing?
    ensures Shadow(env, t0, l0, Step(env, e, s), k, Step(env, e, x))
  {
    StepIsSafe(env, e, x);
    StepRefines(true, env, t0, l0, x, e);
    CommitsAlike(env, s, k, x);
  }

  lemma ReplayCommits(env: Env, t0: TickState, l0: Local, s: Sys, e: Event, k: Metric, x: Sys)
    requires Sound(env) && Between(env, t0.slots, t0, l0) && Between(env, t0.slots, t0, BumpLocal(l0, k))
    requires Safe(env, s) && Shadow(env, t0, l0, s, k, x)
    requires e.Advance? && s.proc.pc.Cleared?
    ensures Refines(true, env, t0, BumpLocal(l0, k), Step(env, e, s))
  {
    StepRefines(true, env, t0, l0, x, e);
    ClosesAlike(env, s, k, x);
    BumpedHeadRefines(env, t0, l0, AtCleared(env, s), k, AtCleared(env, x));
  }

  lemma ReplayDies(env: Env, t0: TickState, l0: Local, s: Sys, k: Metric, x: Sys)
    requires Sound(env) && Between(env, t0.slots, t0, l0) && Safe(env, s) && Shadow(env, t0, l0, s, k, x)
    ensures Refines(true, env, t0, l0, Step(env, Crash, s))
  {
    StepRefines(true, env, t0, l0, x, Crash);
    assert Step(env, Crash, s) == Step(env, Crash, x);
  }

  // ---------------------------------------------------------------- whole histories

  lemma QuietStepCounts(env: Env, t0: TickState, l0: Local, s: Sys, e: Event, r: Track)
    requires Sound(env) && Between(env, t0.slots, t0, l0) && Safe(env, s) && !LeftTick(s, t0.tick)
    requires r.live.None? && Counted(env, t0, l0, s, r) && Benign(false, env, t0.tick, s, e)
    ensures Counted(env, t0, l0, Step(env, e, s), Follow(env, s, e, r))
  {
    var lb := ShiftLocal(l0, r.counted);
    if e.Advance? && s.proc.Slot? && s.proc.pc.Head? && s.proc.t.receipt.Some? {
      ReplayStarts(env, t0, lb, s, e);
    } else {
      StepRefines(true, env, t0, lb, s, e);
    }
  }

  lemma ReplayStepCounts(env: Env, t0: TickState, l0: Local, s: Sys, e: Event, r: Track)
    requires Sound(env) && Between(env, t0.slots, t0, l0) && Safe(env, s) && !LeftTick(s, t0.tick)
    requires r.live.Some? && Counted(env, t0, l0, s, r)
    ensures Counted(env, t0, l0, Step(env, e, s), Follow(env, s, e, r))
  {
    var lb, k := ShiftLocal(l0, r.counted), r.live.value;
    var x :| Shadow(env, t0, lb, s, k, x);
    match e
    case Crash => ReplayDies(env, t0, lb, s, k, x);
    case Restart =>
    case Advance(_, _, _) =>
      if s.proc.pc.Committing? {
        ReplayGoesOn(env, t0, lb, s, e, k, x);
      } else {
        ReplayCommitCounts(env, t0, l0, s, e, r, x);
      }
  }

  lemma ReplayCommitCounts(env: Env, t0: TickState, l0: Local, s: Sys, e: Event, r: Track, x: Sys)
    requires Sound(env) && Between(env, t0.slots, t0, l0) && Safe(env, s) && r.live.Some?
    requires Shadow(env, t0, ShiftLocal(l0, r.counted), s, r.live.value, x)
    requires e.Advance? && s.proc.pc.Cleared?
    ensures Counted(env, t0, l0, Step(env, e, s), Follow(env, s, e, r))
  {
    ShiftBump(l0.metrics, r.counted, r.live.value);
    ReplayCommits(env, t0, ShiftLocal(l0, r.counted), s, e, r.live.value, x);
  }

  lemma StepCounts(env: Env, t0: TickState, l0: Local, s: Sys, e: Event, r: Track)
    requires Sound(env) && Between(env, t0.slots, t0, l0) && Safe(env, s)
    requires Counted(env, t0, l0, s, r) && Benign(false, env, t0.tick, s, e)
    ensures Counted(env, t0, l0, Step(env, e, s), Follow(env, s, e, r))
  {
    if LeftTick(s, t0.tick) {
      LeavingIsFinal(env, s, e, t0.tick);
    } else if r.live.None? {
      QuietStepCounts(env, t0, l0, s, e, r);
    } else {
      ReplayStepCounts(env, t0, l0, s, e, r);
    }
  }

  lemma {:induction false} HistoryCounts(env: Env, t0: TickState, l0: Local, s: Sys, history: seq<Event>, r: Track)
    requires Sound(env) && Between(env, t0.slots, t0, l0) && Safe(env, s)
    requires Counted(env, t0, l0, s, r) && BenignHistory(false, env, t0.tick, s, history)
    ensures Counted(env, t0, l0, Exec(env, s, history), FollowAll(env, s, history, r))
    decreases |history|
  {
    if history != [] {
      StepIsSafe(env, history[0], s);
      StepCounts(env, t0, l0, s, history[0], r);
      HistoryCounts(env, t0, l0, Step(env, history[0], s), history[1..], Follow(env, s, history[0], r));
    }
  }

  lemma HistoryIsCounted(env: Env, s0: Sys, history: seq<Event>) returns (r: Track)
    requires Sound(env) && Safe(env, s0) && s0.proc.Slot? && s0.proc.pc.Head? && s0.proc.t.plan.None?
    requires s0.proc.t.nextSlot <= s0.proc.t.slots
    requires BenignHistory(false, env, s0.proc.t.tick, s0, history)
    ensures r.counted == Replays(env, s0, history)
    ensures var Slot(_, t0, l0) := s0.proc;
            Between(env, t0.slots, t0, l0) && Counted(env, t0, l0, Exec(env, s0, history), r)
  {
    var Slot(_, t0, l0) := s0.proc;
    StartsInside(true, env, s0);
    ShiftNothing(l0);
    HistoryCounts(env, t0, l0, s0, history, Track(None, multiset{}));
    r := FollowAll(env, s0, history, Track(None, multiset{}));
  }

  /** Take any reachable process at the top of a slot with nothing planned, and any benign history from
      there. Whatever the disk then says about this tick between two slots is what the uninterrupted
      tick says at that slot, with one more count for each slot committed from a replayed receipt. */
  lemma MetricsExceedByReplays(env: Env, s0: Sys, history: seq<Event>)
    requires Sound(env) && Safe(env, s0) && s0.proc.Slot? && s0.proc.pc.Head? && s0.proc.t.plan.None?
    requires s0.proc.t.nextSlot <= s0.proc.t.slots
    requires BenignHistory(false, env, s0.proc.t.tick, s0, history)
    ensures var Slot(_, t0, l0) := s0.proc;
            var s := Exec(env, s0, history);
            LeftTick(s, t0.tick) ||
            (&& s.disk.snapshot.Some? && s.disk.snapshot.value.InTick?
             && var InTick(d, dl) := s.disk.snapshot.value;
             && d.tick == t0.tick
             && (d.plan.None? ==>
                   var (t, l) := Direct(env, t0, l0, d.nextSlot);
                   d == t && dl == ShiftLocal(l, Replays(env, s0, history))))
  {
    var Slot(_, t0, l0) := s0.proc;
    var r := HistoryIsCounted(env, s0, history);
    var s := Exec(env, s0, history);
    if !LeftTick(s, t0.tick) {
      CountedDisk(env, t0, l0, s, r);
    }
  }

  lemma CountedDisk(env: Env, t0: TickState, l0: Local, s: Sys, r: Track)
    requires Sound(env) && Between(env, t0.slots, t0, l0) && Counted(env, t0, l0, s, r) && !LeftTick(s, t0.tick)
    ensures s.disk.snapshot.Some? && s.disk.snapshot.value.InTick?
    ensures var InTick(d, dl) := s.disk.snapshot.value;
            && d.tick == t0.tick
            && (d.plan.None? ==>
                  var (t, l) := Direct(env, t0, l0, d.nextSlot); d == t && dl == ShiftLocal(l, r.counted))
  {
    var lb := ShiftLocal(l0, r.counted);
    if r.live.Some? {
      var x :| Shadow(env, t0, lb, s, r.live.value, x);
      DiskRefines(env, t0, lb, x);
    } else {
      DiskRefines(env, t0, lb, s);
    }
    DirectShifts(env, t0, l0, s.disk.snapshot.value.t.nextSlot, r.counted);
  }

  lemma DiskRefines(env: Env, t0: TickState, l0: Local, s: Sys)
    requires Sound(env) && Between(env, t0.slots, t0, l0) && Refines(true, env, t0, l0, s) && !LeftTick(s, t0.tick)
    ensures s.disk.snapshot.Some? && s.disk.snapshot.value.InTick?
    ensures var InTick(d, dl) := s.disk.snapshot.value;
            d.tick == t0.tick && (d.plan.None? ==> (d, dl) == Direct(env, t0, l0, d.nextSlot))
  {
    DirectKeeps(env, t0, l0, s.disk.snapshot.value.t.nextSlot);
  }

  /** So an interrupted tick that is about to mine holds the uninterrupted counters, each higher by
      exactly the number of slots that counted it from a replayed receipt. */
  lemma TickEndsWithReplays(env: Env, s0: Sys, history: seq<Event>)
    requires Sound(env) && Safe(env, s0) && s0.proc.Slot? && s0.proc.pc.Head? && s0.proc.t.plan.None?
    requires s0.proc.t.nextSlot <= s0.proc.t.slots
    requires BenignHistory(false, env, s0.proc.t.tick, s0, history)
    requires Exec(env, s0, history).proc.Drained? && Exec(env, s0, history).proc.t.tick == s0.proc.t.tick
    ensures var Slot(_, t0, l0) := s0.proc;
            var Drained(t, l) := Exec(env, s0, history).proc;
            var (u, m) := Direct(env, t0, l0, t0.slots);
            && t == u && l == ShiftLocal(m, Replays(env, s0, history))
            && forall k :: Count(l.metrics, k) == Count(m.metrics, k) + Replays(env, s0, history)[k]
  {
    var Slot(_, t0, l0) := s0.proc;
    var s := Exec(env, s0, history);
    var r := HistoryIsCounted(env, s0, history);
    HistoryIsSafe(env, s0, history);
    DrainedCounts(env, t0, l0, s, r);
    ShiftIsShifted(Direct(env, t0, l0, t0.slots).1.metrics, r.counted);
  }

  lemma DrainedCounts(env: Env, t0: TickState, l0: Local, s: Sys, r: Track)
    requires Sound(env) && Between(env, t0.slots, t0, l0) && Safe(env, s) && Counted(env, t0, l0, s, r)
    requires s.proc.Drained? && s.proc.t.tick == t0.tick
    ensures var (u, m) := Direct(env, t0, l0, t0.slots);
            s.proc.t == u && s.proc.local == ShiftLocal(m, r.counted)
  {
    DrainedIsTickEnd(true, env, t0, ShiftLocal(l0, r.counted), s);
    DirectShifts(env, t0, l0, t0.slots, r.counted);
  }
}
