/** What rebuilding the local view after a reorg makes of a leaderboard, row by row of the listing. */
module ChainView {
  import opened Wrappers
  import opened World
  import opened Ownership

  /** The listing has this pass for this agent, and in this state. */
  predicate Lists(rows: seq<Row>, i: nat, p: string) {
    exists k | 0 <= k < |rows| :: rows[k].pass == p && rows[k].owner == Some(i)
  }

  predicate ListsAs(rows: seq<Row>, i: nat, p: string, state: PassState) {
    exists k | 0 <= k < |rows| :: rows[k].pass == p && rows[k].owner == Some(i) && rows[k].state == state
  }

  /** The last row of this pass that has a known owner gives it to this agent. */
  predicate LastOwner(rows: seq<Row>, p: string, i: nat) {
    exists k | 0 <= k < |rows| :: OwnedLast(rows, p, i, k)
  }

  predicate OwnedLast(rows: seq<Row>, p: string, i: nat, k: int)
    requires 0 <= k < |rows|
  {
    && rows[k].pass == p && rows[k].owner == Some(i)
    && forall j | k < j < |rows| :: !(rows[j].pass == p && rows[j].owner.Some?)
  }

  predicate Nameless(rows: seq<Row>) {
    exists k | 0 <= k < |rows| :: rows[k].pass == ""
  }

  ghost predicate TwiceActive(rows: seq<Row>) {
    exists i: nat, p, q :: TwoActive(rows, i, p, q)
  }

  predicate TwoActive(rows: seq<Row>, i: nat, p: string, q: string) {
    p != q && ListsAs(rows, i, p, ActiveState) && ListsAs(rows, i, q, ActiveState)
  }

  ghost predicate AgentTold(rows: seq<Row>, i: nat, a: Agent) {
    && a.lastAction == ReorgReset && a.cooldown == 0
    && (forall p :: p in a.owned <==> Lists(rows, i, p))
    && (forall p :: p in a.invalid <==> ListsAs(rows, i, p, InvalidState))
    && (forall p :: a.activePass == Some(p) <==> ListsAs(rows, i, p, ActiveState))
  }

  /** A view that says what the listing says, and nothing else. */
  ghost predicate Told(rows: seq<Row>, l: Local) {
    && !Nameless(rows) && !TwiceActive(rows)
    && (forall i | 0 <= i < |l.agents| :: AgentTold(rows, i, l.agents[i]))
    && (forall p :: p in l.ownerOf <==> exists i: nat :: LastOwner(rows, p, i))
    && (forall p | p in l.ownerOf :: LastOwner(rows, p, l.ownerOf[p]))
  }

  // ---------------------------------------------------------------- one more row

  lemma OneMoreRow(rows: seq<Row>, r: Row)
    ensures forall i: nat, p :: Lists(rows + [r], i, p) <==> Lists(rows, i, p) || (r.pass == p && r.owner == Some(i))
    ensures forall i: nat, p, s ::
              ListsAs(rows + [r], i, p, s) <==> ListsAs(rows, i, p, s) || (r.pass == p && r.owner == Some(i) && r.state == s)
    ensures Nameless(rows + [r]) <==> Nameless(rows) || r.pass == ""
  {
    var more := rows + [r];
    assert more[|rows|] == r;
    forall i: nat, p
      ensures Lists(more, i, p) <==> Lists(rows, i, p) || (r.pass == p && r.owner == Some(i))
    {
      if Lists(rows, i, p) {
        var k :| 0 <= k < |rows| && rows[k].pass == p && rows[k].owner == Some(i);
        assert more[k] == rows[k];
      }
    }
    forall i: nat, p, s
      ensures ListsAs(more, i, p, s) <==> ListsAs(rows, i, p, s) || (r.pass == p && r.owner == Some(i) && r.state == s)
    {
      if ListsAs(rows, i, p, s) {
        var k :| 0 <= k < |rows| && rows[k].pass == p && rows[k].owner == Some(i) && rows[k].state == s;
        assert more[k] == rows[k];
      }
    }
    if Nameless(rows) {
      var k :| 0 <= k < |rows| && rows[k].pass == "";
      assert more[k].pass == "";
    }
  }

  lemma OneMoreOwner(rows: seq<Row>, r: Row, p: string, i: nat)
    ensures LastOwner(rows + [r], p, i) <==>
              if r.pass == p && r.owner.Some? then r.owner == Some(i) else LastOwner(rows, p, i)
  {
    var more := rows + [r];
    assert more[|rows|] == r;
    if r.pass == p && r.owner == Some(i) {
      assert OwnedLast(more, p, i, |rows|);
    }
    if !(r.pass == p && r.owner.Some?) && LastOwner(rows, p, i) {
      var k :| 0 <= k < |rows| && OwnedLast(rows, p, i, k);
      assert OwnedLast(more, p, i, k);
    }
    if !(r.pass == p && r.owner.Some?) && LastOwner(more, p, i) {
      var k :| 0 <= k < |more| && OwnedLast(more, p, i, k);
      assert more[k].pass == p && k < |rows|;
      assert forall j | 0 <= j < |rows| :: more[j] == rows[j];
      assert OwnedLast(rows, p, i, k);
    }
  }

  lemma AgentTakesRow(rows: seq<Row>, r: Row, i: nat, a: Agent)
    requires AgentTold(rows, i, a) && r.owner.Some?
    requires r.owner == Some(i) && r.state.ActiveState? ==> a.activePass.None? || a.activePass == Some(r.pass)
    ensures var b := if r.owner == Some(i)
                     then a.(owned := a.owned + {r.pass},
                             invalid := if r.state.InvalidState? then a.invalid + {r.pass} else a.invalid,
                             activePass := if r.state.ActiveState? then Some(r.pass) else a.activePass)
                     else a;
            AgentTold(rows + [r], i, b)
  {
    OneMoreRow(rows, r);
    if r.owner == Some(i) && r.state.ActiveState? && a.activePass.None? {
      forall p
        ensures !ListsAs(rows, i, p, ActiveState)
      {
      }
    }
  }

  lemma OwnersTakeRow(rows: seq<Row>, r: Row, owners: map<string, nat>)
    requires forall p :: p in owners <==> exists i: nat :: LastOwner(rows, p, i)
    requires forall p | p in owners :: LastOwner(rows, p, owners[p])
    ensures var more := if r.owner.Some? then owners[r.pass := r.owner.value] else owners;
            && (forall p :: p in more <==> exists i: nat :: LastOwner(rows + [r], p, i))
            && (forall p | p in more :: LastOwner(rows + [r], p, more[p]))
  {
    var more := if r.owner.Some? then owners[r.pass := r.owner.value] else owners;
    forall p, i: nat
      ensures LastOwner(rows + [r], p, i) <==> if r.pass == p && r.owner.Some? then r.owner == Some(i) else LastOwner(rows, p, i)
    {
      OneMoreOwner(rows, r, p, i);
    }
    forall p
      ensures p in more <==> exists i: nat :: LastOwner(rows + [r], p, i)
    {
      if r.pass == p && r.owner.Some? {
        assert LastOwner(rows + [r], p, r.owner.value);
      } else if p in owners {
        assert LastOwner(rows + [r], p, owners[p]);
      }
    }
  }

  /** With an agent told of its active pass, one more active row is a second one exactly when it names
      another pass. */
  lemma SecondActiveIff(rows: seq<Row>, r: Row, l: Local)
    requires Told(rows, l) && (r.owner.Some? ==> r.owner.value < |l.agents|)
    requires forall k | 0 <= k < |rows| && rows[k].owner.Some? :: rows[k].owner.value < |l.agents|
    ensures TwiceActive(rows + [r]) <==>
              r.owner.Some? && r.state.ActiveState?
              && l.agents[r.owner.value].activePass.Some? && l.agents[r.owner.value].activePass != Some(r.pass)
  {
    OneMoreRow(rows, r);
    if r.owner.Some? && r.state.ActiveState? {
      var i := r.owner.value;
      assert AgentTold(rows, i, l.agents[i]);
      if l.agents[i].activePass.Some? && l.agents[i].activePass != Some(r.pass) {
        var p := l.agents[i].activePass.value;
        assert ListsAs(rows, i, p, ActiveState);
        assert TwoActive(rows + [r], i, p, r.pass);
      }
    }
    if TwiceActive(rows + [r]) {
      var i: nat, p, q :| TwoActive(rows + [r], i, p, q);
      if ListsAs(rows, i, p, ActiveState) && ListsAs(rows, i, q, ActiveState) {
        assert TwoActive(rows, i, p, q);
      } else {
        var known := if ListsAs(rows, i, p, ActiveState) then p else q;
        assert r.owner == Some(i) && AgentTold(rows, i, l.agents[i]);
        assert ListsAs(rows, i, known, ActiveState) && known != r.pass;
      }
    }
  }

  lemma RowIsTold(rows: seq<Row>, r: Row, l: Local)
    requires Told(rows, l) && (r.owner.Some? ==> r.owner.value < |l.agents|)
    requires forall k | 0 <= k < |rows| && rows[k].owner.Some? :: rows[k].owner.value < |l.agents|
    ensures AddRow(l, r).Success? <==> !Nameless(rows + [r]) && !TwiceActive(rows + [r])
    ensures AddRow(l, r).Success? ==>
              var m := AddRow(l, r).value;
              && Told(rows + [r], m) && |m.agents| == |l.agents|
              && m.metrics == l.metrics && m.activeCount == l.activeCount
              && forall i | 0 <= i < |l.agents| :: m.agents[i].scriptedIndex == l.agents[i].scriptedIndex
  {
    OneMoreRow(rows, r);
    SecondActiveIff(rows, r, l);
    if AddRow(l, r).Success? {
      RowChangesView(rows, r, l);
    }
  }

  lemma RowChangesView(rows: seq<Row>, r: Row, l: Local)
    requires Told(rows, l) && (r.owner.Some? ==> r.owner.value < |l.agents|)
    requires AddRow(l, r).Success? && !Nameless(rows + [r]) && !TwiceActive(rows + [r])
    ensures Told(rows + [r], AddRow(l, r).value)
  {
    var m := AddRow(l, r).value;
    OwnersTakeRow(rows, r, l.ownerOf);
    forall i | 0 <= i < |l.agents|
      ensures AgentTold(rows + [r], i, m.agents[i])
    {
      assert AgentTold(rows, i, l.agents[i]);
      if r.owner.Some? {
        AgentTakesRow(rows, r, i, l.agents[i]);
      } else {
        OneMoreRow(rows, r);
      }
    }
  }

  // ---------------------------------------------------------------- the whole listing

  lemma {:induction false} RowsAreTold(done: seq<Row>, l: Local, rows: seq<Row>)
    requires Told(done, l) && RowsInRange(done, |l.agents|) && RowsInRange(rows, |l.agents|)
    ensures AddRows(l, rows).Success? <==> !Nameless(done + rows) && !TwiceActive(done + rows)
    ensures AddRows(l, rows).Success? ==>
              var m := AddRows(l, rows).value;
              && Told(done + rows, m) && |m.agents| == |l.agents|
              && m.metrics == l.metrics && m.activeCount == l.activeCount
              && forall i | 0 <= i < |l.agents| :: m.agents[i].scriptedIndex == l.agents[i].scriptedIndex
    decreases |rows|
  {
    if rows == [] {
      assert done + rows == done;
    } else {
      var more := done + [rows[0]];
      assert rows[0].owner.Some? ==> rows[0].owner.value < |l.agents|;
      RowIsTold(done, rows[0], l);
      assert done + rows == more + rows[1..];
      if AddRow(l, rows[0]).Success? {
        assert forall k | 0 <= k < |rows[1..]| :: rows[1..][k] == rows[k + 1];
        RowsAreTold(more, AddRow(l, rows[0]).value, rows[1..]);
      } else {
        MoreIsWorse(more, rows[1..]);
      }
    }
  }

  lemma MoreIsWorse(rows: seq<Row>, rest: seq<Row>)
    ensures Nameless(rows) ==> Nameless(rows + rest)
    ensures TwiceActive(rows) ==> TwiceActive(rows + rest)
  {
    if Nameless(rows) {
      var k :| 0 <= k < |rows| && rows[k].pass == "";
      assert (rows + rest)[k].pass == "";
    }
    if TwiceActive(rows) {
      var i: nat, p, q :| TwoActive(rows, i, p, q);
      var j :| 0 <= j < |rows| && rows[j].pass == p && rows[j].owner == Some(i) && rows[j].state == ActiveState;
      var k :| 0 <= k < |rows| && rows[k].pass == q && rows[k].owner == Some(i) && rows[k].state == ActiveState;
      assert (rows + rest)[j] == rows[j] && (rows + rest)[k] == rows[k];
      assert TwoActive(rows + rest, i, p, q);
    }
  }

  lemma ResetIsBlank(l: Local)
    ensures Told([], Reset(l))
  {
  }

  /** A rebuild succeeds exactly when every row names a pass and a known owner and no agent has two active
      passes; the view then says exactly what the listing says: what each agent owns, which of it is
      invalid or active, and who has each pass. Nothing else changes but the agents' last action and
      cooldown. */
  lemma RebuildTellsListing(l: Local, rows: seq<Row>)
    requires RowsInRange(rows, |l.agents|)
    ensures Rebuild(l, rows).Success? <==>
              !Nameless(rows) && !TwiceActive(rows) && forall k | 0 <= k < |rows| :: rows[k].owner.Some?
    ensures Rebuild(l, rows).Success? ==>
              var m := Rebuild(l, rows).value;
              && Told(rows, m) && |m.agents| == |l.agents|
              && m.metrics == l.metrics && m.activeCount == l.activeCount
              && forall i | 0 <= i < |l.agents| :: m.agents[i].scriptedIndex == l.agents[i].scriptedIndex
  {
    ResetIsBlank(l);
    RowsAreTold([], Reset(l), rows);
    assert [] + rows == rows;
  }

  /** A refresh records the active pass the chain reports as the agent's own, or that it has none. */
  lemma RefreshEffect(l: Local, i: nat, active: Option<string>)
    requires i < |l.agents|
    ensures var m := Refresh(l, i, active);
            && m.metrics == l.metrics && m.activeCount == l.activeCount && |m.agents| == |l.agents|
            && m.agents[i].activePass == active && m.agents[i].invalid == l.agents[i].invalid
            && (forall p :: p in m.agents[i].owned <==> p in l.agents[i].owned || active == Some(p))
            && (forall j | 0 <= j < |l.agents| && j != i :: m.agents[j] == l.agents[j])
            && (forall p :: p in m.ownerOf <==> p in l.ownerOf || active == Some(p))
            && (forall p | p in m.ownerOf :: m.ownerOf[p] == if active == Some(p) then i else l.ownerOf[p])
  {
  }
}
