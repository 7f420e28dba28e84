/** Rolling the balance-history store back block by block, interrupted and resumed: what it undoes, and
    exactly when an interruption leaves a store that no later process can roll back. */
module Rollback {
  import opened Wrappers
  import opened KeyCodec

  type BalanceKey = (Hash32, nat)

  datatype Row = Row(delta: int, balance: nat)

  type Utxos = map<OutPoint, UtxoValue>

  /** Undo bundle of one block: every output it created, every older output it spent, and a superset of
      the script hashes whose balance it changed. */
  datatype Bundle = Bundle(created: seq<OutPoint>, spent: seq<(OutPoint, UtxoValue)>, touched: seq<Hash32>)

  datatype Core = Core(
    utxos: Utxos,
    balances: map<BalanceKey, Row>,
    commits: map<nat, string>,
    undo: map<nat, Bundle>,
    height: nat)

  // ---------------------------------------------------------------- one block forward and back

  /** What one block brings: the outputs it leaves, its undo bundle, its balance rows and its commit. */
  datatype Block = Block(left: Utxos, bundle: Bundle, rows: seq<(Hash32, Row)>, commit: string)

  function DeleteOutputs(u: Utxos, keys: seq<OutPoint>): Utxos {
    if keys == [] then u else DeleteOutputs(u, keys[..|keys| - 1]) - {keys[|keys| - 1]}
  }

  function PutOutputs(u: Utxos, entries: seq<(OutPoint, UtxoValue)>): Utxos {
    if entries == [] then u
    else
      var e := entries[|entries| - 1];
      PutOutputs(u, entries[..|entries| - 1])[e.0 := e.1]
  }

  function PutRows(b: map<BalanceKey, Row>, rows: seq<(Hash32, Row)>, height: nat): map<BalanceKey, Row> {
    if rows == [] then b
    else
      var r := rows[|rows| - 1];
      PutRows(b, rows[..|rows| - 1], height)[(r.0, height) := r.1]
  }

  function DeleteRows(b: map<BalanceKey, Row>, hashes: seq<Hash32>, height: nat): map<BalanceKey, Row> {
    if hashes == [] then b else DeleteRows(b, hashes[..|hashes| - 1], height) - {(hashes[|hashes| - 1], height)}
  }

  function Outpoints(entries: seq<(OutPoint, UtxoValue)>): seq<OutPoint> {
    seq(|entries|, i requires 0 <= i < |entries| => entries[i].0)
  }

  /** The block-state batch of one block with its undo bundle. */
  function Forward(c: Core, b: Block): Core {
    var h := c.height + 1;
    Core(DeleteOutputs(c.utxos + b.left, Outpoints(b.bundle.spent)),
         PutRows(c.balances, b.rows, h),
         c.commits[h := b.commit],
         c.undo[h := b.bundle],
         h)
  }

  /** `rollback_one_block` of the latest block, one atomic batch. */
  function RollbackOne(c: Core): Result<Core, string> {
    if c.height !in c.undo then Failure("missing block undo bundle")
    else
      var bundle := c.undo[c.height];
      Success(Core(PutOutputs(DeleteOutputs(c.utxos, bundle.created), bundle.spent),
                   DeleteRows(c.balances, bundle.touched, c.height),
                   c.commits - {c.height},
                   c.undo - {c.height},
                   if c.height == 0 then 0 else c.height - 1))
  }

  /** A block that a chain can bring next: it creates new outputs, spends outputs that are there, touches
      what it says, and nothing is stored yet at its height. */
  ghost predicate Fits(c: Core, b: Block) {
    var h := c.height + 1;
    && (forall op | op in b.left :: op in b.bundle.created)
    && (forall op | op in b.bundle.created :: op !in c.utxos)
    && (forall i | 0 <= i < |b.bundle.spent| ::
          b.bundle.spent[i].0 in c.utxos && c.utxos[b.bundle.spent[i].0] == b.bundle.spent[i].1)
    && (forall i | 0 <= i < |b.rows| :: b.rows[i].0 in b.bundle.touched)
    && (forall x :: (x, h) !in c.balances)
    && h !in c.commits && h !in c.undo
  }

  lemma {:induction false} DeletedOutputs(u: Utxos, keys: seq<OutPoint>)
    ensures DeleteOutputs(u, keys) == map op | op in u && op !in keys :: u[op]
  {
    if keys != [] {
      DeletedOutputs(u, keys[..|keys| - 1]);
      assert keys == keys[..|keys| - 1] + [keys[|keys| - 1]];
    }
  }

  lemma {:induction false} DeletedRows(b: map<BalanceKey, Row>, hashes: seq<Hash32>, height: nat)
    ensures DeleteRows(b, hashes, height) == map k | k in b && !(k.1 == height && k.0 in hashes) :: b[k]
  {
    if hashes != [] {
      DeletedRows(b, hashes[..|hashes| - 1], height);
      assert hashes == hashes[..|hashes| - 1] + [hashes[|hashes| - 1]];
    }
  }

  /** Putting entries that all agree with a map fills in that map at their keys. */
  lemma {:induction false} PutAgreeing(u: Utxos, entries: seq<(OutPoint, UtxoValue)>, v: Utxos)
    requires forall i | 0 <= i < |entries| :: entries[i].0 in v && v[entries[i].0] == entries[i].1
    ensures var r := PutOutputs(u, entries);
            && (forall op :: op in r <==> op in u || op in Outpoints(entries))
            && (forall op | op in r :: r[op] == if op in Outpoints(entries) then v[op] else u[op])
  {
    if entries != [] {
      var n := |entries| - 1;
      PutAgreeing(u, entries[..n], v);
      assert Outpoints(entries) == Outpoints(entries[..n]) + [entries[n].0];
    }
  }

  /** Rolling back a block that fitted gives back exactly the store it was put on. */
  lemma RollbackUndoesForward(c: Core, b: Block)
    requires Fits(c, b)
    ensures RollbackOne(Forward(c, b)) == Success(c)
  {
    var h := c.height + 1;
    OutputsRestored(c.utxos, b);
    RowsRestored(c.balances, b.rows, b.bundle.touched, h);
    KeyRestored(c.commits, h, b.commit);
    KeyRestored(c.undo, h, b.bundle);
  }

  lemma KeyRestored<V>(m: map<nat, V>, h: nat, v: V)
    requires h !in m
    ensures m[h := v] - {h} == m
  {
  }

  /** Putting rows at a height changes nothing at other heights or hashes. */
  lemma {:induction false} PutRowsFrame(b: map<BalanceKey, Row>, rows: seq<(Hash32, Row)>, height: nat, k: BalanceKey)
    requires k.1 != height || forall i | 0 <= i < |rows| :: rows[i].0 != k.0
    ensures k in PutRows(b, rows, height) <==> k in b
    ensures k in b ==> PutRows(b, rows, height)[k] == b[k]
  {
    if rows != [] {
      PutRowsFrame(b, rows[..|rows| - 1], height, k);
    }
  }

  lemma RowsRestored(balances: map<BalanceKey, Row>, rows: seq<(Hash32, Row)>, touched: seq<Hash32>, h: nat)
    requires forall i | 0 <= i < |rows| :: rows[i].0 in touched
    requires forall x :: (x, h) !in balances
    ensures DeleteRows(PutRows(balances, rows, h), touched, h) == balances
  {
    var after := PutRows(balances, rows, h);
    var r := DeleteRows(after, touched, h);
    DeletedRows(after, touched, h);
    forall k: BalanceKey
      ensures k in r <==> k in balances
      ensures k in balances ==> r[k] == balances[k]
    {
      assert k == (k.0, k.1);
      if !(k.1 == h && k.0 in touched) {
        PutRowsFrame(balances, rows, h, k);
      }
    }
  }

  lemma OutputsRestored(u: Utxos, b: Block)
    requires forall op | op in b.left :: op in b.bundle.created
    requires forall op | op in b.bundle.created :: op !in u
    requires forall i | 0 <= i < |b.bundle.spent| ::
               b.bundle.spent[i].0 in u && u[b.bundle.spent[i].0] == b.bundle.spent[i].1
    ensures PutOutputs(DeleteOutputs(DeleteOutputs(u + b.left, Outpoints(b.bundle.spent)), b.bundle.created), b.bundle.spent) == u
  {
    var spent := Outpoints(b.bundle.spent);
    var after := DeleteOutputs(u + b.left, spent);
    DeletedOutputs(u + b.left, spent);
    DeletedOutputs(after, b.bundle.created);
    var bare := DeleteOutputs(after, b.bundle.created);
    PutAgreeing(bare, b.bundle.spent, u);
    assert forall op :: op in bare <==> op in u && op !in spent;
  }

  // ---------------------------------------------------------------- what one block changes

  /** The entry of a list that counts for a key is the last one with that key. */
  ghost predicate LastFor<K, V>(entries: seq<(K, V)>, key: K, i: int) {
    0 <= i < |entries| && entries[i].0 == key && forall j | i < j < |entries| :: entries[j].0 != key
  }

  ghost predicate Names<K, V>(entries: seq<(K, V)>, key: K) {
    exists i | 0 <= i < |entries| :: entries[i].0 == key
  }

  /** r is u with the entries for a key written at the place that belongs to it. */
  ghost predicate Written<K, V, P>(u: map<P, V>, r: map<P, V>, entries: seq<(K, V)>, key: K, place: P) {
    && (place in r <==> place in u || Names(entries, key))
    && (forall i | LastFor(entries, key, i) :: place in r && r[place] == entries[i].1)
    && (place in u && !Names(entries, key) ==> r[place] == u[place])
  }

  lemma WrittenNext<K, V, P>(u: map<P, V>, q: map<P, V>, r: map<P, V>, entries: seq<(K, V)>, n: nat, key: K, place: P, to: P)
    requires |entries| == n + 1 && Written(u, q, entries[..n], key, place)
    requires r == q[to := entries[n].1] && (to == place <==> entries[n].0 == key)
    ensures Written(u, r, entries, key, place)
  {
    FrontOrLast(entries[..n], entries[n], key);
    assert entries == entries[..n] + [entries[n]];
    forall i | LastFor(entries, key, i)
      ensures place in r && r[place] == entries[i].1
    {
      if entries[n].0 != key {
        assert LastFor(entries[..n], key, i);
      }
    }
  }

  lemma {:induction false} PutOutputsEffect(u: Utxos, entries: seq<(OutPoint, UtxoValue)>, op: OutPoint)
    ensures Written(u, PutOutputs(u, entries), entries, op, op)
  {
    if entries != [] {
      var n := |entries| - 1;
      PutOutputsEffect(u, entries[..n], op);
      WrittenNext(u, PutOutputs(u, entries[..n]), PutOutputs(u, entries), entries, n, op, op, entries[n].0);
    }
  }

  lemma {:induction false} PutRowsEffect(b: map<BalanceKey, Row>, rows: seq<(Hash32, Row)>, height: nat, x: Hash32)
    ensures Written(b, PutRows(b, rows, height), rows, x, (x, height))
  {
    if rows != [] {
      var n := |rows| - 1;
      PutRowsEffect(b, rows[..n], height, x);
      WrittenNext(b, PutRows(b, rows[..n], height), PutRows(b, rows, height), rows, n, x, (x, height), (rows[n].0, height));
    }
  }

  lemma FrontOrLast<K, V>(front: seq<(K, V)>, last: (K, V), key: K)
    ensures var entries := front + [last];
            && (Names(entries, key) <==> Names(front, key) || last.0 == key)
            && (forall i :: LastFor(entries, key, i) <==> if last.0 == key then i == |front| else LastFor(front, key, i))
  {
    var entries := front + [last];
    assert entries[|front|] == last;
    assert forall i | 0 <= i < |front| :: entries[i] == front[i];
  }

  /** Putting a block on: new outputs come in and spent ones go out, the last row of a script stands at the
      new height and at no other, and the height, the commit and the undo bundle are recorded. */
  lemma ForwardEffect(c: Core, b: Block)
    ensures var r := Forward(c, b);
            && r.height == c.height + 1
            && r.commits == c.commits[r.height := b.commit] && r.undo == c.undo[r.height := b.bundle]
            && (forall op :: op in r.utxos <==> (op in c.utxos || op in b.left) && !Names(b.bundle.spent, op))
            && (forall op | op in r.utxos :: r.utxos[op] == if op in b.left then b.left[op] else c.utxos[op])
            && (forall x, i | LastFor(b.rows, x, i) ::
                  (x, r.height) in r.balances && r.balances[(x, r.height)] == b.rows[i].1)
            && (forall k: BalanceKey | k.1 != r.height || !Names(b.rows, k.0) ::
                  (k in r.balances <==> k in c.balances) && (k in c.balances ==> r.balances[k] == c.balances[k]))
  {
    var r := Forward(c, b);
    DeletedOutputs(c.utxos + b.left, Outpoints(b.bundle.spent));
    forall op
      ensures op in Outpoints(b.bundle.spent) <==> Names(b.bundle.spent, op)
    {
      OutpointNamed(b.bundle.spent, op);
    }
    forall x, i | LastFor(b.rows, x, i)
      ensures (x, r.height) in r.balances && r.balances[(x, r.height)] == b.rows[i].1
    {
      PutRowsEffect(c.balances, b.rows, r.height, x);
    }
    forall k: BalanceKey | k.1 != r.height || !Names(b.rows, k.0)
      ensures (k in r.balances <==> k in c.balances) && (k in c.balances ==> r.balances[k] == c.balances[k])
    {
      PutRowsFrame(c.balances, b.rows, r.height, k);
    }
  }

  lemma OutpointNamed(entries: seq<(OutPoint, UtxoValue)>, op: OutPoint)
    ensures op in Outpoints(entries) <==> Names(entries, op)
  {
    var keys := Outpoints(entries);
    assert forall i | 0 <= i < |entries| :: keys[i] == entries[i].0;
    if op in keys {
      var i :| 0 <= i < |keys| && keys[i] == op;
      assert entries[i].0 == op;
    }
  }

  /** Rolling any store back by one block: it fails exactly without a bundle; otherwise a spent output is
      back with its value, other created outputs are gone, the rows of touched scripts at this height are
      gone, commit and bundle too, and the height is one lower, but not below zero. */
  lemma RollbackEffect(c: Core)
    ensures RollbackOne(c).Failure? <==> c.height !in c.undo
    ensures c.height in c.undo ==>
              var r := RollbackOne(c).value;
              var bundle := c.undo[c.height];
              && (c.height > 0 ==> r.height == c.height - 1) && (c.height == 0 ==> r.height == 0)
              && r.commits == c.commits - {c.height} && r.undo == c.undo - {c.height}
              && (forall op, i | LastFor(bundle.spent, op, i) :: op in r.utxos && r.utxos[op] == bundle.spent[i].1)
              && (forall op | !Names(bundle.spent, op) ::
                    && (op in r.utxos <==> op in c.utxos && op !in bundle.created)
                    && (op in r.utxos ==> r.utxos[op] == c.utxos[op]))
              && (forall k: BalanceKey :: k in r.balances <==> k in c.balances && !(k.1 == c.height && k.0 in bundle.touched))
              && (forall k | k in r.balances :: r.balances[k] == c.balances[k])
  {
    if c.height in c.undo {
      var bundle := c.undo[c.height];
      var kept := DeleteOutputs(c.utxos, bundle.created);
      DeletedOutputs(c.utxos, bundle.created);
      DeletedRows(c.balances, bundle.touched, c.height);
      forall op, i | LastFor(bundle.spent, op, i)
        ensures op in RollbackOne(c).value.utxos && RollbackOne(c).value.utxos[op] == bundle.spent[i].1
      {
        PutOutputsEffect(kept, bundle.spent, op);
      }
      forall op | !Names(bundle.spent, op)
        ensures op in RollbackOne(c).value.utxos <==> op in kept
        ensures op in kept ==> RollbackOne(c).value.utxos[op] == kept[op]
      {
        PutOutputsEffect(kept, bundle.spent, op);
      }
    }
  }

  // ---------------------------------------------------------------- the store of a chain

  function CoreAt(base: Core, blocks: seq<Block>, n: nat): Core
    requires n <= |blocks|
  {
    if n == 0 then base else Forward(CoreAt(base, blocks, n - 1), blocks[n - 1])
  }

  ghost predicate FitChain(base: Core, blocks: seq<Block>) {
    && base.undo == map[]
    && forall n | 0 <= n < |blocks| :: Fits(CoreAt(base, blocks, n), blocks[n])
  }

  /** Undo bundles are there for exactly the heights above the base. */
  ghost predicate UndoSpans(c: Core, low: nat) {
    forall h :: h in c.undo <==> low < h <= c.height
  }

  lemma {:induction false} CoreHeights(base: Core, blocks: seq<Block>, n: nat)
    requires base.undo == map[] && n <= |blocks|
    ensures CoreAt(base, blocks, n).height == base.height + n
    ensures UndoSpans(CoreAt(base, blocks, n), base.height)
  {
    if n > 0 {
      CoreHeights(base, blocks, n - 1);
      ForwardHeight(CoreAt(base, blocks, n - 1), blocks[n - 1]);
    }
  }

  lemma ForwardHeight(c: Core, b: Block)
    ensures Forward(c, b).height == c.height + 1
    ensures forall h :: h in Forward(c, b).undo <==> h in c.undo || h == c.height + 1
  {
  }

  /** The store holds whole blocks: it is the one built up to its height. */
  ghost predicate Built(base: Core, blocks: seq<Block>, c: Core) {
    exists n | 0 <= n <= |blocks| :: IsCoreAt(base, blocks, n, c)
  }

  ghost predicate IsCoreAt(base: Core, blocks: seq<Block>, n: nat, c: Core)
    requires n <= |blocks|
  {
    c == CoreAt(base, blocks, n)
  }

  lemma PreviousCore(base: Core, blocks: seq<Block>, n: nat)
    requires FitChain(base, blocks) && 0 < n <= |blocks|
    ensures RollbackOne(CoreAt(base, blocks, n)) == Success(CoreAt(base, blocks, n - 1))
  {
    RollbackUndoesForward(CoreAt(base, blocks, n - 1), blocks[n - 1]);
  }

  lemma BuiltUndo(base: Core, blocks: seq<Block>, c: Core)
    requires FitChain(base, blocks) && Built(base, blocks, c)
    ensures UndoSpans(c, base.height) && c.height >= base.height
  {
    var n :| 0 <= n <= |blocks| && IsCoreAt(base, blocks, n, c);
    CoreHeights(base, blocks, n);
  }

  lemma LowerBuilt(base: Core, blocks: seq<Block>, c: Core) returns (lower: Core)
    requires FitChain(base, blocks) && Built(base, blocks, c) && c.height > base.height
    ensures RollbackOne(c) == Success(lower) && Built(base, blocks, lower) && lower.height == c.height - 1
  {
    var n :| 0 <= n <= |blocks| && IsCoreAt(base, blocks, n, c);
    CoreHeights(base, blocks, n);
    PreviousCore(base, blocks, n);
    lower := CoreAt(base, blocks, n - 1);
    CoreHeights(base, blocks, n - 1);
    assert IsCoreAt(base, blocks, n - 1, lower);
  }

  /** A set of stores that rolling back one block leads through, down to a lowest height. */
  ghost predicate Ladder(good: Core -> bool, low: nat) {
    forall c | good(c) :: Rung(good, low, c)
  }

  ghost predicate Rung(good: Core -> bool, low: nat, c: Core) {
    && c.height >= low && UndoSpans(c, low)
    && (c.height > low ==>
          RollbackOne(c).Success? && good(RollbackOne(c).value) && RollbackOne(c).value.height == c.height - 1)
  }

  /** The stores of a chain are such a set: rolling back leads from each to the one a block lower. */
  lemma ChainIsLadder(base: Core, blocks: seq<Block>)
    requires FitChain(base, blocks)
    ensures Ladder(c => Built(base, blocks, c), base.height)
  {
    var good := c => Built(base, blocks, c);
    forall c | good(c)
      ensures Rung(good, base.height, c)
    {
      BuiltUndo(base, blocks, c);
      if c.height > base.height {
        var lower := LowerBuilt(base, blocks, c);
      }
    }
  }

  // ---------------------------------------------------------------- the interrupted protocol

  /** What is persisted beside the store while it is rolled back, and the boundaries of the undo journal. */
  datatype Meta = Meta(
    inProgress: bool,
    target: Option<nat>,
    next: Option<nat>,
    supportedFrom: Option<nat>,
    retainedFrom: Option<nat>)

  datatype Disk = Disk(core: Core, meta: Meta)

  /** `ensure_rollback_undo_available`. */
  predicate UndoAvailable(d: Disk, target: nat, current: nat) {
    target >= current ||
    (&& (d.meta.supportedFrom.Some? ==> target + 1 >= d.meta.supportedFrom.value)
     && d.meta.retainedFrom.Some? && target + 1 >= d.meta.retainedFrom.value
     && forall h | target < h <= current :: h in d.core.undo)
  }

  /** Undo is wanting exactly when the first height to undo lies below where rolling back is supported or
      where the journal is retained, when no such boundary is recorded, or when a bundle is missing. */
  lemma UndoWanting(d: Disk, goal: nat)
    ensures goal >= d.core.height ==> UndoAvailable(d, goal, d.core.height)
    ensures goal < d.core.height ==> (!UndoAvailable(d, goal, d.core.height) <==>
              || (exists h :: d.meta.supportedFrom == Some(h) && h > goal + 1)
              || d.meta.retainedFrom == None
              || (exists h :: d.meta.retainedFrom == Some(h) && h > goal + 1)
              || (exists h | goal + 1 <= h <= d.core.height :: h !in d.core.undo))
  {
    if d.meta.supportedFrom.Some? && d.meta.supportedFrom.value > goal + 1 {
      assert d.meta.supportedFrom == Some(d.meta.supportedFrom.value);
    }
    if d.meta.retainedFrom.Some? && d.meta.retainedFrom.value > goal + 1 {
      assert d.meta.retainedFrom == Some(d.meta.retainedFrom.value);
    }
  }

  /** Where a process is: not rolling back, between two of its writes, or gone. */
  datatype Pc =
    | Idle
    | Started(goal: nat)                // progress flag written
    | Aimed(goal: nat)                  // target written
    | Loop(at: nat, goal: nat)          // height written
    | Undone(at: nat, goal: nat)        // one more block rolled back, its height not yet written
    | Clearing                          // progress flag removed
    | Cleared                           // target removed
    | Down

  datatype Sys = Sys(disk: Disk, pc: Pc)

  datatype Event = Begin(goal: nat) | Go | Crash | Resume

  /** `rollback_to_block_height`, up to its first write. */
  function AtBegin(s: Sys, goal: nat): Sys {
    if goal >= s.disk.core.height || !UndoAvailable(s.disk, goal, s.disk.core.height) then s
    else Sys(s.disk.(meta := s.disk.meta.(inProgress := true)), Started(goal))
  }

  /** `resume_rollback_if_needed`, up to its loop; an error leaves the process without a rollback. */
  function AtResume(s: Sys): Sys {
    var m := s.disk.meta;
    if !m.inProgress then s.(pc := Idle)
    else if m.target.None? || m.next.None? || m.next.value != s.disk.core.height || m.target.value > m.next.value
            || !UndoAvailable(s.disk, m.target.value, m.next.value) then s.(pc := Down)
    else s.(pc := Loop(m.next.value, m.target.value))
  }

  /** A resumption does nothing without a recorded rollback, refuses a record that lacks its target or its
      height, or whose height is not the store's or lies below its target, or whose undo is wanting, and
      otherwise goes on where the record stands. */
  lemma ResumeDecides(s: Sys)
    ensures var m, h := s.disk.meta, s.disk.core.height;
            && AtResume(s).disk == s.disk
            && (AtResume(s).pc == Idle <==> !m.inProgress)
            && (forall at: nat, goal: nat :: AtResume(s).pc == Loop(at, goal) <==>
                  && m.inProgress && m.target == Some(goal) && m.next == Some(at) && at == h && goal <= h
                  && UndoAvailable(s.disk, goal, h))
            && (AtResume(s).pc.Idle? || AtResume(s).pc.Loop? || AtResume(s).pc.Down?)
  {
  }

  function AtGo(s: Sys): Sys {
    var m := s.disk.meta;
    match s.pc
    case Idle | Down => s
    case Started(goal) => Sys(s.disk.(meta := m.(target := Some(goal))), Aimed(goal))
    case Aimed(goal) => Sys(s.disk.(meta := m.(next := Some(s.disk.core.height))), Loop(s.disk.core.height, goal))
    case Loop(at, goal) =>
      if at <= goal then Sys(s.disk.(meta := m.(inProgress := false)), Clearing)
      else if at != s.disk.core.height || RollbackOne(s.disk.core).Failure? then s.(pc := Down)
      else Sys(s.disk.(core := RollbackOne(s.disk.core).value), Undone(at - 1, goal))
    case Undone(at, goal) => Sys(s.disk.(meta := m.(next := Some(at))), Loop(at, goal))
    case Clearing => Sys(s.disk.(meta := m.(target := None)), Cleared)
    case Cleared => Sys(s.disk.(meta := m.(next := None)), Idle)
  }

  function Step(s: Sys, e: Event): Sys {
    match e
    case Begin(goal) => if s.pc.Idle? then AtBegin(s, goal) else s
    case Go => AtGo(s)
    case Crash => s.(pc := Down)
    case Resume => if s.pc.Down? then AtResume(s) else s
  }

  function Exec(s: Sys, history: seq<Event>): Sys
    decreases |history|
  {
    if history == [] then s else Exec(Step(s, history[0]), history[1..])
  }

  // ---------------------------------------------------------------- whole blocks, always

  /** Memory and disk of a live process agree. */
  ghost predicate Linked(s: Sys) {
    var m, h := s.disk.meta, s.disk.core.height;
    match s.pc
    case Idle | Clearing | Cleared => !m.inProgress
    case Started(goal) => m.inProgress && goal < h && UndoAvailable(s.disk, goal, h)
    case Aimed(goal) => m.inProgress && m.target == Some(goal) && goal < h && UndoAvailable(s.disk, goal, h)
    case Loop(at, goal) =>
      m.inProgress && m.target == Some(goal) && m.next == Some(at) && goal <= at == h && UndoAvailable(s.disk, goal, h)
    case Undone(at, goal) =>
      m.inProgress && m.target == Some(goal) && m.next == Some(at + 1) && goal <= at == h && UndoAvailable(s.disk, goal, h)
    case Down => true
  }

  ghost predicate Sound(good: Core -> bool, s: Sys) {
    good(s.disk.core) && Linked(s)
  }

  lemma LoopRollsBack(good: Core -> bool, low: nat, s: Sys) returns (lower: Core)
    requires Ladder(good, low) && Sound(good, s) && s.pc.Loop? && s.pc.at > s.pc.goal
    ensures AtGo(s) == Sys(s.disk.(core := lower), Undone(s.pc.at - 1, s.pc.goal)) && lower.height == s.pc.at - 1
    ensures Sound(good, AtGo(s))
  {
    var c := s.disk.core;
    assert Rung(good, low, c) && s.pc.at in c.undo;
    lower := RollbackOne(c).value;
    assert Rung(good, low, lower);
    LessUndoNeeded(low, s.disk, lower, s.pc.goal);
  }

  lemma LessUndoNeeded(low: nat, d: Disk, lower: Core, goal: nat)
    requires UndoSpans(d.core, low) && UndoSpans(lower, low)
    requires lower.height + 1 == d.core.height && UndoAvailable(d, goal, d.core.height)
    ensures UndoAvailable(d.(core := lower), goal, lower.height)
  {
  }

  lemma StepKeepsSound(good: Core -> bool, low: nat, s: Sys, e: Event)
    requires Ladder(good, low) && Sound(good, s)
    ensures Sound(good, Step(s, e))
  {
    if e.Go? && s.pc.Loop? && s.pc.at > s.pc.goal {
      var lower := LoopRollsBack(good, low, s);
    }
  }

  /** Over every history of rollbacks, crashes and resumptions the store stays one of the chain's. */
  lemma {:induction false} HistoryKeepsSound(good: Core -> bool, low: nat, s: Sys, history: seq<Event>)
    requires Ladder(good, low) && Sound(good, s)
    ensures Sound(good, Exec(s, history))
    decreases |history|
  {
    if history != [] {
      StepKeepsSound(good, low, s, history[0]);
      HistoryKeepsSound(good, low, Step(s, history[0]), history[1..]);
    }
  }

  /** No block is ever half rolled back: the store is always the one built up to its height. */
  lemma WholeBlocksAlways(base: Core, blocks: seq<Block>, s: Sys, history: seq<Event>)
    requires FitChain(base, blocks) && Built(base, blocks, s.disk.core) && Linked(s)
    ensures Built(base, blocks, Exec(s, history).disk.core)
  {
    ChainIsLadder(base, blocks);
    HistoryKeepsSound(c => Built(base, blocks, c), base.height, s, history);
  }

  // ---------------------------------------------------------------- where an interruption is fatal

  /** A rollback is recorded that no process will resume. */
  predicate Wedged(d: Disk) {
    d.meta.inProgress && (d.meta.target.None? || d.meta.next.None? || d.meta.next.value != d.core.height)
  }

  /** Nothing is left of an earlier rollback. */
  predicate Clean(d: Disk) {
    !d.meta.inProgress && d.meta.target.None? && d.meta.next.None?
  }

  /** A crash wedges the store exactly after a block is rolled back until its height is written, and,
      while the record is being written, unless an earlier rollback left a fitting one behind. */
  lemma CrashWedgesIff(s: Sys)
    requires Linked(s) && !s.pc.Down?
    ensures Wedged(Step(s, Crash).disk) <==>
              match s.pc
              case Undone(_, _) => true
              case Aimed(_) => s.disk.meta.next != Some(s.disk.core.height)
              case Started(_) => s.disk.meta.target.None? || s.disk.meta.next != Some(s.disk.core.height)
              case _ => false
  {
  }

  /** Once wedged, no history changes the store or the record, and no rollback ever runs again. */
  lemma {:induction false} WedgedForever(s: Sys, history: seq<Event>)
    requires s.pc.Down? && Wedged(s.disk)
    ensures Exec(s, history) == s
    decreases |history|
  {
    if history != [] {
      WedgedForever(Step(s, history[0]), history[1..]);
    }
  }

  // ---------------------------------------------------------------- one rollback, interrupted

  predicate NoBegin(history: seq<Event>) {
    forall i | 0 <= i < |history| :: !history[i].Begin?
  }

  /** The stretches in which a rollback that began on a clean record must not die. */
  predicate InGap(pc: Pc) {
    pc.Started? || pc.Aimed? || pc.Undone?
  }

  predicate DiesInGap(s: Sys, history: seq<Event>)
    decreases |history|
  {
    history != [] && ((history[0].Crash? && InGap(s.pc)) || DiesInGap(Step(s, history[0]), history[1..]))
  }

  predicate RolledBack(goal: nat, s: Sys) {
    s.pc.Idle? && !s.disk.meta.inProgress && s.disk.core.height == goal
  }

  /** On the way to one goal from a clean record. */
  ghost predicate Toward(goal: nat, s: Sys) {
    var m, h := s.disk.meta, s.disk.core.height;
    match s.pc
    case Idle => h == goal
    case Started(g) => g == goal && m.target.None? && m.next.None?
    case Aimed(g) => g == goal && m.next.None?
    case Loop(_, g) => g == goal
    case Undone(_, g) => g == goal
    case Clearing | Cleared => h == goal
    case Down => Wedged(s.disk) || Resumable(goal, s.disk)
  }

  ghost predicate Resumable(goal: nat, d: Disk) {
    if !d.meta.inProgress then d.core.height == goal
    else
      && d.meta.target == Some(goal) && d.meta.next == Some(d.core.height)
      && goal <= d.core.height && UndoAvailable(d, goal, d.core.height)
  }

  lemma StepKeepsToward(good: Core -> bool, low: nat, goal: nat, s: Sys, e: Event)
    requires Ladder(good, low) && Sound(good, s) && Toward(goal, s) && !e.Begin?
    ensures Toward(goal, Step(s, e))
    ensures s.pc.Down? && Wedged(s.disk) ==> Step(s, e) == s
    ensures !(s.pc.Down? && Wedged(s.disk)) ==>
              (Step(s, e).pc.Down? && Wedged(Step(s, e).disk) <==> e.Crash? && InGap(s.pc))
  {
    if e.Go? && s.pc.Loop? && s.pc.at > s.pc.goal {
      var lower := LoopRollsBack(good, low, s);
    }
  }

  /** After any history of one rollback it is wedged exactly if it died in a gap. */
  lemma {:induction false} WedgedIffDiedInGap(good: Core -> bool, low: nat, goal: nat, s: Sys, history: seq<Event>)
    requires Ladder(good, low) && Sound(good, s) && Toward(goal, s) && NoBegin(history)
    requires !(s.pc.Down? && Wedged(s.disk))
    ensures var s' := Exec(s, history);
            && Sound(good, s') && Toward(goal, s')
            && (s'.pc.Down? && Wedged(s'.disk) <==> DiesInGap(s, history))
    decreases |history|
  {
    if history != [] {
      var next, rest := Step(s, history[0]), history[1..];
      StepKeepsToward(good, low, goal, s, history[0]);
      StepKeepsSound(good, low, s, history[0]);
      assert forall i | 0 <= i < |rest| :: rest[i] == history[i + 1];
      if next.pc.Down? && Wedged(next.disk) {
        WedgedForever(next, rest);
      } else {
        WedgedIffDiedInGap(good, low, goal, next, rest);
      }
    }
  }

  function StepsLeft(s: Sys): nat {
    var h := s.disk.core.height;
    match s.pc
    case Idle | Down => 0
    case Cleared => 1
    case Clearing => 2
    case Loop(at, goal) => 3 + 2 * (if at > goal then at - goal else 0)
    case Undone(at, goal) => 4 + 2 * (if at > goal then at - goal else 0)
    case Aimed(goal) => 4 + 2 * (if h > goal then h - goal else 0)
    case Started(goal) => 5 + 2 * (if h > goal then h - goal else 0)
  }

  /** Left alone, a live process reaches the goal. */
  lemma {:induction false} LiveRollbackEnds(good: Core -> bool, low: nat, goal: nat, s: Sys) returns (more: seq<Event>)
    requires Ladder(good, low) && Sound(good, s) && Toward(goal, s) && !s.pc.Down?
    ensures NoBegin(more) && RolledBack(goal, Exec(s, more)) && good(Exec(s, more).disk.core)
    decreases StepsLeft(s)
  {
    if s.pc.Idle? {
      more := [];
    } else {
      StepKeepsToward(good, low, goal, s, Go);
      StepKeepsSound(good, low, s, Go);
      GoGetsCloser(good, low, s);
      var rest := LiveRollbackEnds(good, low, goal, Step(s, Go));
      more := [Go] + rest;
      assert more[1..] == rest;
    }
  }

  lemma GoGetsCloser(good: Core -> bool, low: nat, s: Sys)
    requires Ladder(good, low) && Sound(good, s) && !s.pc.Down? && !s.pc.Idle?
    ensures !AtGo(s).pc.Down? && StepsLeft(AtGo(s)) < StepsLeft(s)
  {
    if s.pc.Loop? && s.pc.at > s.pc.goal {
      var lower := LoopRollsBack(good, low, s);
    }
  }

  lemma RollbackEnds(good: Core -> bool, low: nat, goal: nat, s: Sys) returns (more: seq<Event>)
    requires Ladder(good, low) && Sound(good, s) && Toward(goal, s) && !(s.pc.Down? && Wedged(s.disk))
    ensures NoBegin(more) && RolledBack(goal, Exec(s, more)) && good(Exec(s, more).disk.core)
  {
    if s.pc.Down? {
      StepKeepsToward(good, low, goal, s, Resume);
      StepKeepsSound(good, low, s, Resume);
      var rest := LiveRollbackEnds(good, low, goal, Step(s, Resume));
      more := [Resume] + rest;
      assert more[1..] == rest;
    } else {
      more := LiveRollbackEnds(good, low, goal, s);
    }
  }

  /** A rollback that began on a clean record, interrupted and resumed any number of times, can still end
      in the store built up to its target if and only if no interruption fell into a gap: before its
      record was written whole, or between rolling a block back and writing its height. */
  lemma InterruptedRollbackEndsIff(base: Core, blocks: seq<Block>, d: Disk, goal: nat, history: seq<Event>)
    requires FitChain(base, blocks) && Built(base, blocks, d.core) && Clean(d)
    requires goal < d.core.height && UndoAvailable(d, goal, d.core.height) && NoBegin(history)
    ensures var began := Step(Sys(d, Idle), Begin(goal));
            (exists more :: NoBegin(more) && RolledBack(goal, Exec(Exec(began, history), more))
                            && Built(base, blocks, Exec(Exec(began, history), more).disk.core))
            <==> !DiesInGap(began, history)
  {
    var good := c => Built(base, blocks, c);
    var began := Step(Sys(d, Idle), Begin(goal));
    var s := Exec(began, history);
    ChainIsLadder(base, blocks);
    WedgedIffDiedInGap(good, base.height, goal, began, history);
    if DiesInGap(began, history) {
      forall more
        ensures Exec(s, more) == s
      {
        WedgedForever(s, more);
      }
    } else {
      var more := RollbackEnds(good, base.height, goal, s);
      assert good(Exec(s, more).disk.core);
    }
  }

  // ---------------------------------------------------------------- in place

  /** Rolling back without interruption while undo bundles last. */
  function RollDown(c: Core, goal: nat): (r: Core)
    ensures r.height <= c.height
    decreases c.height
  {
    if c.height <= goal || RollbackOne(c).Failure? then c else RollDown(RollbackOne(c).value, goal)
  }

  /** On the store of a chain it reaches the store built up to its target. */
  lemma {:induction false} RollDownIsBuilt(good: Core -> bool, low: nat, c: Core, goal: nat)
    requires Ladder(good, low) && good(c) && low <= goal <= c.height
    ensures good(RollDown(c, goal)) && RollDown(c, goal).height == goal
    decreases c.height
  {
    assert Rung(good, low, c);
    if c.height > goal {
      RollDownIsBuilt(good, low, RollbackOne(c).value, goal);
    }
  }

  lemma UndoLasts(d: Disk, goal: nat)
    requires UndoAvailable(d, goal, d.core.height) && d.core.height > goal
    ensures RollbackOne(d.core).Success?
    ensures UndoAvailable(d.(core := RollbackOne(d.core).value), goal, d.core.height - 1)
  {
  }

  class HistoryStore {
    var utxos: Utxos
    var balances: map<BalanceKey, Row>
    var commits: map<nat, string>
    var undo: map<nat, Bundle>
    var height: nat
    var meta: Meta

    function Value(): (c: Core)
      reads this
    {
      Core(utxos, balances, commits, undo, height)
    }

    /** `rollback_one_block`. */
    method RollbackOneBlock(blockHeight: nat) returns (r: Result<nat, string>)
      modifies this`utxos, this`balances, this`commits, this`undo, this`height
      ensures blockHeight != old(height) || RollbackOne(old(Value())).Failure? ==> r.Failure? && Value() == old(Value())
      ensures blockHeight == old(height) && RollbackOne(old(Value())).Success? ==>
                r.Success? && RollbackOne(old(Value())) == Success(Value())
    {
      if height != blockHeight {
        return Failure("rollback only supports the latest committed height");
      }
      if height !in undo {
        return Failure("missing block undo bundle");
      }
      var bundle := undo[height];
      var i := 0;
      while i < |bundle.created|
        invariant 0 <= i <= |bundle.created|
        invariant Value() == old(Value()).(utxos := DeleteOutputs(old(utxos), bundle.created[..i]))
      {
        assert bundle.created[..i + 1][..i] == bundle.created[..i];
        utxos := utxos - {bundle.created[i]};
        i := i + 1;
      }
      assert bundle.created[..i] == bundle.created;
      ghost var bare := utxos;
      i := 0;
      while i < |bundle.spent|
        invariant 0 <= i <= |bundle.spent|
        invariant Value() == old(Value()).(utxos := PutOutputs(bare, bundle.spent[..i]))
      {
        assert bundle.spent[..i + 1][..i] == bundle.spent[..i];
        utxos := utxos[bundle.spent[i].0 := bundle.spent[i].1];
        i := i + 1;
      }
      assert bundle.spent[..i] == bundle.spent;
      i := 0;
      while i < |bundle.touched|
        invariant 0 <= i <= |bundle.touched|
        invariant Value() == old(Value()).(utxos := utxos, balances := DeleteRows(old(balances), bundle.touched[..i], height))
        invariant utxos == PutOutputs(bare, bundle.spent)
      {
        assert bundle.touched[..i + 1][..i] == bundle.touched[..i];
        balances := balances - {(bundle.touched[i], height)};
        i := i + 1;
      }
      assert bundle.touched[..i] == bundle.touched;
      commits := commits - {height};
      undo := undo - {height};
      height := if height == 0 then 0 else height - 1;
      r := Success(height);
    }

    /** The loop shared by a fresh and a resumed rollback, and the end of it. */
    method RollLoop(goal: nat)
      requires goal <= height && UndoAvailable(Disk(Value(), meta), goal, height)
      modifies this
      ensures Value() == RollDown(old(Value()), goal) && height == goal
      ensures meta == old(meta).(inProgress := false, target := None, next := None)
    {
      var next := height;
      while next > goal
        invariant goal <= next == height
        invariant meta == old(meta).(next := meta.next)
        invariant UndoAvailable(Disk(Value(), meta), goal, height)
        invariant RollDown(Value(), goal) == RollDown(old(Value()), goal)
      {
        UndoLasts(Disk(Value(), meta), goal);
        var r := RollbackOneBlock(next);
        next := next - 1;
        meta := meta.(next := Some(next));
      }
      meta := meta.(inProgress := false);
      meta := meta.(target := None);
      meta := meta.(next := None);
    }

    /** `rollback_to_block_height`. */
    method RollbackToBlockHeight(goal: nat) returns (r: Result<nat, string>)
      modifies this
      ensures r.Failure? <==> goal > old(height) || !UndoAvailable(old(Disk(Value(), meta)), goal, old(height))
      ensures r.Failure? || goal == old(height) ==> Value() == old(Value()) && meta == old(meta)
      ensures r.Success? && goal < old(height) ==>
                && Value() == RollDown(old(Value()), goal) && height == goal
                && meta == old(meta).(inProgress := false, target := None, next := None)
    {
      if goal > height {
        return Failure("invalid rollback target height");
      }
      if goal == height {
        return Success(height);
      }
      if !UndoAvailable(Disk(Value(), meta), goal, height) {
        return Failure("rollback requires undo bundles");
      }
      meta := meta.(inProgress := true);
      meta := meta.(target := Some(goal));
      meta := meta.(next := Some(height));
      RollLoop(goal);
      r := Success(height);
    }

    /** `resume_rollback_if_needed`. */
    method ResumeRollbackIfNeeded() returns (r: Result<bool, string>)
      modifies this
      ensures var s := AtResume(Sys(old(Disk(Value(), meta)), Down));
              match s.pc
              case Idle => r == Success(false) && Value() == old(Value()) && meta == old(meta)
              case Down => r.Failure? && Value() == old(Value()) && meta == old(meta)
              case Loop(_, goal) =>
                && r == Success(true) && Value() == RollDown(old(Value()), goal) && height == goal
                && meta == old(meta).(inProgress := false, target := None, next := None)
              case _ => false
    {
      if !meta.inProgress {
        return Success(false);
      }
      if meta.target.None? || meta.next.None? {
        return Failure("missing rollback state while a rollback is in progress");
      }
      var goal, next := meta.target.value, meta.next.value;
      if next != height {
        return Failure("rollback resume state mismatch");
      }
      if goal > next {
        return Failure("invalid rollback resume state");
      }
      if !UndoAvailable(Disk(Value(), meta), goal, next) {
        return Failure("rollback requires undo bundles");
      }
      RollLoop(goal);
      r := Success(true);
    }
  }
}
