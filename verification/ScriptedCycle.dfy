/** The scripted scheduler: each agent walks a fixed cycle of actions, taking the first viable one
    from its own index onward (`is_action_viable`, `choose_scripted_action_for_agent`). */
module ScriptedCycle {
  import opened Wrappers
  import opened World

  predicate Viable(env: Env, l: Local, actor: nat, action: Action, available: set<nat>, preHeight: nat)
    requires actor < |l.agents|
  {
    match action
    case Transfer => l.agents[actor].owned != {} && |available| >= 2
    case Remint => l.ownerOf != map[]
    case SpendBalance => env.balanceAt(actor, preHeight) >= 200_000
    case _ => true
  }

  /** Cycle position reached from an index by going forward `offset` steps. */
  function Wrap(start: nat, offset: nat, n: nat): (p: nat)
    requires n > 0
    ensures p < n
  {
    (start + offset) % n
  }

  /** Offset from `start` of the first viable position at or after `offset`. */
  function FirstViable(cycle: seq<Action>, start: nat, offset: nat, viable: Action -> bool): (r: Option<nat>)
    requires cycle != [] && offset <= |cycle|
    ensures r.Some? ==> offset <= r.value < |cycle| && viable(cycle[Wrap(start, r.value, |cycle|)])
    ensures r.Some? ==> forall k | offset <= k < r.value :: !viable(cycle[Wrap(start, k, |cycle|)])
    ensures r.None? ==> forall k | offset <= k < |cycle| :: !viable(cycle[Wrap(start, k, |cycle|)])
    decreases |cycle| - offset
  {
    if offset == |cycle| then None
    else if viable(cycle[Wrap(start, offset, |cycle|)]) then Some(offset)
    else FirstViable(cycle, start, offset + 1, viable)
  }

  datatype Choice = Choice(position: Option<nat>, action: Action, nextIndex: nat)

  function Choose(cycle: seq<Action>, start: nat, viable: Action -> bool): (c: Choice)
    requires cycle != []
    ensures c.nextIndex < |cycle|
    ensures c.position.Some? ==> c.position.value < |cycle| && c.action == cycle[c.position.value]
                                 && viable(c.action) && c.nextIndex == Wrap(c.position.value, 1, |cycle|)
    ensures c.position.None? ==> c.action == Noop
  {
    match FirstViable(cycle, start, 0, viable)
    case Some(k) =>
      var p := Wrap(start, k, |cycle|);
      Choice(Some(p), cycle[p], Wrap(p, 1, |cycle|))
    case None => Choice(None, Noop, Wrap(start, 1, |cycle|))
  }

  // ---------------------------------------------------------------- fairness

  lemma AtLeastOne(k: int, n: nat)
    requires k >= 1
    ensures k * n >= n
  {
  }

  /** Quotient and remainder are unique. */
  lemma DivModUnique(a: nat, q: int, r: nat, n: nat)
    requires n > 0 && r < n && a == q * n + r
    ensures a % n == r
  {
    var q0, r0 := a / n, a % n;
    assert a == q0 * n + r0;
    assert (q - q0) * n == r0 - r;
    if q > q0 {
      AtLeastOne(q - q0, n);
    } else if q < q0 {
      AtLeastOne(q0 - q, n);
    }
  }

  lemma WrapOnce(start: nat, x: nat, y: nat, n: nat)
    requires n > 0
    ensures Wrap(Wrap(start, x, n), y, n) == Wrap(start, x + y, n)
  {
    var q, r := (start + x) / n, (start + x) % n;
    var q', r' := (r + y) / n, (r + y) % n;
    assert start + x + y == q * n + q' * n + r';
    assert start + x + y == (q + q') * n + r';
    DivModUnique(start + x + y, q + q', r', n);
  }

  lemma WrapInjective(start: nat, a: nat, b: nat, n: nat)
    requires n > 0 && a < n && b < n && Wrap(start, a, n) == Wrap(start, b, n)
    ensures a == b
  {
    var x, y := (start + a) / n, (start + b) / n;
    assert a - b == x * n - y * n == (x - y) * n;
    if x > y {
      AtLeastOne(x - y, n);
    } else if x < y {
      AtLeastOne(y - x, n);
    }
  }

  /** Number of steps from index i forward to position j around a cycle of length n. */
  function Ahead(i: nat, j: nat, n: nat): (d: nat)
    requires n > 0 && j < n
    ensures d < n && Wrap(i, d, n) == j
  {
    var q, r := i / n, i % n;
    var d := if r <= j then j - r else j + n - r;
    assert i == q * n + r;
    assert (q + 1) * n == q * n + n;
    DivModUnique(i + d, if r <= j then q else q + 1, j, n);
    d
  }

  /** Positions chosen by successive selections of one agent while viability changes freely. */
  function Run(cycle: seq<Action>, start: nat, viables: seq<Action -> bool>): (r: seq<Option<nat>>)
    requires cycle != []
    ensures |r| == |viables|
    decreases |viables|
  {
    if viables == [] then []
    else
      var c := Choose(cycle, start, viables[0]);
      [c.position] + Run(cycle, c.nextIndex, viables[1..])
  }

  /** One selection either takes position j or brings the index strictly closer to it. */
  lemma SelectionApproaches(cycle: seq<Action>, start: nat, j: nat, viable: Action -> bool)
    requires j < |cycle| && viable(cycle[j])
    ensures var c := Choose(cycle, start, viable);
            c.position.Some?
            && (c.position != Some(j) ==> Ahead(c.nextIndex, j, |cycle|) < Ahead(start, j, |cycle|))
  {
    var n := |cycle|;
    var d := Ahead(start, j, n);
    assert cycle[Wrap(start, d, n)] == cycle[j];
    var first := FirstViable(cycle, start, 0, viable);
    assert first.Some? && first.value <= d;
    var k := first.value;
    if k < d {
      var next := Wrap(Wrap(start, k, n), 1, n);
      WrapOnce(start, k, 1, n);
      WrapOnce(start, k + 1, d - k - 1, n);
      assert Wrap(next, d - k - 1, n) == j;
      WrapInjective(next, Ahead(next, j, n), d - k - 1, n);
    }
  }

  /** Bounded fairness: an action that stays viable at position j is taken within one cycle length
      of selections, and within its cyclic distance from the agent's index plus one. */
  lemma {:induction false} BoundedFairness(cycle: seq<Action>, start: nat, j: nat, viables: seq<Action -> bool>)
    requires j < |cycle|
    requires forall k | 0 <= k < |viables| :: viables[k](cycle[j])
    requires |viables| > Ahead(start, j, |cycle|)
    ensures exists k | 0 <= k <= Ahead(start, j, |cycle|) < |cycle| :: Run(cycle, start, viables)[k] == Some(j)
    decreases Ahead(start, j, |cycle|)
  {
    var c := Choose(cycle, start, viables[0]);
    SelectionApproaches(cycle, start, j, viables[0]);
    var run := Run(cycle, start, viables);
    if c.position == Some(j) {
      assert run[0] == Some(j);
    } else {
      BoundedFairness(cycle, c.nextIndex, j, viables[1..]);
      var k :| 0 <= k <= Ahead(c.nextIndex, j, |cycle|) && Run(cycle, c.nextIndex, viables[1..])[k] == Some(j);
      assert run[k + 1] == Some(j);
    }
  }
}
