/** The incremental balance oracle: an UTXO ledger over tracked addresses, updated in place block by
    block, with a balance history that is queried at or before a height. */
module BalanceOracle {
  import opened Wrappers

  datatype OutPoint = OutPoint(txid: string, n: int)
  datatype Entry = Entry(address: string, value: nat)

  datatype Vin = Vin(prev: Option<OutPoint>)
  datatype Vout = Vout(n: int, sat: nat, address: string, addresses: seq<string>)
  datatype Tx = Tx(txid: string, vins: seq<Vin>, vouts: seq<Vout>)
  datatype Block = Block(height: int, txs: seq<Tx>)

  type Balances = map<string, int>
  type Utxos = map<OutPoint, Entry>

  datatype Ledger = Ledger(balances: Balances, utxos: Utxos)

  datatype State = State(
    start: int,
    current: int,
    tracked: set<string>,
    ledger: Ledger,
    history: map<string, map<int, int>>)

  // ---------------------------------------------------------------- a chain as credits and spends

  datatype Move = Spend(op: OutPoint) | Credit(op: OutPoint, address: string, value: nat)

  /** `extract_addresses`. */
  function Addresses(v: Vout): seq<string> {
    (if v.address != "" then [v.address] else []) + v.addresses
  }

  function FirstTracked(tracked: set<string>, addresses: seq<string>): Option<string> {
    if addresses == [] then None
    else if addresses[0] in tracked then Some(addresses[0])
    else FirstTracked(tracked, addresses[1..])
  }

  lemma {:induction false} FirstTrackedIsTracked(tracked: set<string>, addresses: seq<string>)
    ensures FirstTracked(tracked, addresses).Some? ==> FirstTracked(tracked, addresses).value in tracked
  {
    if addresses != [] && addresses[0] !in tracked {
      FirstTrackedIsTracked(tracked, addresses[1..]);
    }
  }

  function VinMoves(v: Vin): seq<Move> {
    if v.prev.Some? then [Spend(v.prev.value)] else []
  }

  function VoutMoves(tracked: set<string>, txid: string, v: Vout): seq<Move> {
    match FirstTracked(tracked, Addresses(v))
    case None => []
    case Some(a) => [Credit(OutPoint(txid, v.n), a, v.sat)]
  }

  function VinsMoves(vs: seq<Vin>): seq<Move> {
    if vs == [] then [] else VinsMoves(vs[..|vs| - 1]) + VinMoves(vs[|vs| - 1])
  }

  function VoutsMoves(tracked: set<string>, txid: string, vs: seq<Vout>): seq<Move> {
    if vs == [] then [] else VoutsMoves(tracked, txid, vs[..|vs| - 1]) + VoutMoves(tracked, txid, vs[|vs| - 1])
  }

  /** All spends of a transaction, then all its tracked credits. */
  function TxMoves(tracked: set<string>, tx: Tx): seq<Move> {
    VinsMoves(tx.vins) + VoutsMoves(tracked, tx.txid, tx.vouts)
  }

  function TxsMoves(tracked: set<string>, txs: seq<Tx>): seq<Move> {
    if txs == [] then [] else TxsMoves(tracked, txs[..|txs| - 1]) + TxMoves(tracked, txs[|txs| - 1])
  }

  function ChainMoves(tracked: set<string>, blocks: seq<Block>): seq<Move> {
    if blocks == [] then []
    else ChainMoves(tracked, blocks[..|blocks| - 1]) + TxsMoves(tracked, blocks[|blocks| - 1].txs)
  }

  // ---------------------------------------------------------------- what a transaction brings

  /** The position of the first tracked address of a list. */
  ghost predicate FirstIn(tracked: set<string>, addresses: seq<string>, k: int) {
    0 <= k < |addresses| && addresses[k] in tracked && forall j | 0 <= j < k :: addresses[j] !in tracked
  }

  /** Its own address, when it has one that is tracked, takes the output; otherwise the first tracked
      address of its list does. */
  ghost predicate Pays(tracked: set<string>, v: Vout, a: string) {
    if v.address != "" && v.address in tracked then a == v.address
    else exists k :: FirstIn(tracked, v.addresses, k) && v.addresses[k] == a
  }

  lemma {:induction false} FirstTrackedIsFirst(tracked: set<string>, addresses: seq<string>)
    ensures match FirstTracked(tracked, addresses)
            case Some(a) => exists k :: FirstIn(tracked, addresses, k) && addresses[k] == a
            case None => forall j | 0 <= j < |addresses| :: addresses[j] !in tracked
  {
    if addresses != [] && addresses[0] !in tracked {
      var rest := addresses[1..];
      FirstTrackedIsFirst(tracked, rest);
      if FirstTracked(tracked, rest).Some? {
        var k :| FirstIn(tracked, rest, k) && rest[k] == FirstTracked(tracked, rest).value;
        assert forall j | 0 < j <= k :: addresses[j] == rest[j - 1];
        assert FirstIn(tracked, addresses, k + 1) && addresses[k + 1] == rest[k];
      } else {
        assert forall j | 0 < j < |addresses| :: addresses[j] == rest[j - 1];
      }
    } else if addresses != [] {
      assert FirstIn(tracked, addresses, 0);
    }
  }

  /** An output brings one credit of its whole value to the address it pays, at its own outpoint, and
      none exactly when no address of it is tracked. */
  lemma OutputCredits(tracked: set<string>, txid: string, v: Vout)
    ensures forall a | Pays(tracked, v, a) :: VoutMoves(tracked, txid, v) == [Credit(OutPoint(txid, v.n), a, v.sat)]
    ensures VoutMoves(tracked, txid, v) == [] <==>
              !(v.address != "" && v.address in tracked) && forall j | 0 <= j < |v.addresses| :: v.addresses[j] !in tracked
    ensures VoutMoves(tracked, txid, v) == [] || exists a :: Pays(tracked, v, a)
  {
    FirstTrackedIsFirst(tracked, v.addresses);
    if v.address != "" {
      assert Addresses(v)[0] == v.address && Addresses(v)[1..] == v.addresses;
    } else {
      assert Addresses(v) == v.addresses;
    }
    if v.address != "" && v.address in tracked {
      assert Pays(tracked, v, v.address);
    } else if FirstTracked(tracked, v.addresses).Some? {
      var k :| FirstIn(tracked, v.addresses, k) && v.addresses[k] == FirstTracked(tracked, v.addresses).value;
      assert Pays(tracked, v, v.addresses[k]);
    }
  }

  /** Value that the outputs of a transaction, of a block and of a chain pay to an address. */
  ghost function Paid(tracked: set<string>, vs: seq<Vout>, a: string): nat {
    if vs == [] then 0
    else
      var v := vs[|vs| - 1];
      Paid(tracked, vs[..|vs| - 1], a) + (if Pays(tracked, v, a) then v.sat else 0)
  }

  ghost function PaidByTxs(tracked: set<string>, txs: seq<Tx>, a: string): nat {
    if txs == [] then 0
    else PaidByTxs(tracked, txs[..|txs| - 1], a) + Paid(tracked, txs[|txs| - 1].vouts, a)
  }

  ghost function PaidByChain(tracked: set<string>, blocks: seq<Block>, a: string): nat {
    if blocks == [] then 0
    else PaidByChain(tracked, blocks[..|blocks| - 1], a) + PaidByTxs(tracked, blocks[|blocks| - 1].txs, a)
  }

  lemma {:induction false} CreditedConcat(xs: seq<Move>, ys: seq<Move>, a: string)
    ensures Credited(xs + ys, a) == Credited(xs, a) + Credited(ys, a)
  {
    if ys == [] {
      assert xs + ys == xs;
    } else {
      CreditedConcat(xs, ys[..|ys| - 1], a);
      assert (xs + ys)[..|xs + ys| - 1] == xs + ys[..|ys| - 1];
    }
  }

  lemma OutputIncome(tracked: set<string>, txid: string, v: Vout, a: string)
    ensures Credited(VoutMoves(tracked, txid, v), a) == if Pays(tracked, v, a) then v.sat else 0
  {
    OutputCredits(tracked, txid, v);
    var ms := VoutMoves(tracked, txid, v);
    if ms != [] {
      var b :| Pays(tracked, v, b);
      assert ms == [Credit(OutPoint(txid, v.n), b, v.sat)];
      assert ms[..0] == [];
    }
  }

  lemma {:induction false} OutputsIncome(tracked: set<string>, txid: string, vs: seq<Vout>, a: string)
    ensures Credited(VoutsMoves(tracked, txid, vs), a) == Paid(tracked, vs, a)
  {
    if vs != [] {
      OutputsIncome(tracked, txid, vs[..|vs| - 1], a);
      OutputIncome(tracked, txid, vs[|vs| - 1], a);
      CreditedConcat(VoutsMoves(tracked, txid, vs[..|vs| - 1]), VoutMoves(tracked, txid, vs[|vs| - 1]), a);
    }
  }

  /** Inputs bring exactly the spends of the outpoints they name, in order. */
  lemma {:induction false} InputsSpend(vs: seq<Vin>)
    ensures Credited(VinsMoves(vs), "") == 0 && forall a :: Credited(VinsMoves(vs), a) == 0
    ensures VinsMoves(vs) == SpendsOf(vs)
  {
    if vs != [] {
      var front, last := vs[..|vs| - 1], vs[|vs| - 1];
      InputsSpend(front);
      forall a
        ensures Credited(VinMoves(last), a) == 0
      {
        if last.prev.Some? {
          assert VinMoves(last) == [Spend(last.prev.value)] && [Spend(last.prev.value)][..0] == [];
        }
      }
      forall a
        ensures Credited(VinsMoves(vs), a) == 0
      {
        CreditedConcat(VinsMoves(front), VinMoves(last), a);
      }
    }
  }

  function SpendsOf(vs: seq<Vin>): seq<Move> {
    if vs == [] then []
    else
      var v := vs[|vs| - 1];
      if v.prev.Some? then SpendsOf(vs[..|vs| - 1]) + [Spend(v.prev.value)] else SpendsOf(vs[..|vs| - 1])
  }

  /** A transaction spends before it credits. */
  lemma TxSpendsFirst(tracked: set<string>, tx: Tx)
    ensures var n := |SpendsOf(tx.vins)|;
            && |TxMoves(tracked, tx)| >= n && TxMoves(tracked, tx)[..n] == SpendsOf(tx.vins)
            && forall k | n <= k < |TxMoves(tracked, tx)| :: TxMoves(tracked, tx)[k].Credit?
  {
    InputsSpend(tx.vins);
    OutputsOnlyCredit(tracked, tx.txid, tx.vouts);
  }

  lemma {:induction false} OutputsOnlyCredit(tracked: set<string>, txid: string, vs: seq<Vout>)
    ensures forall k | 0 <= k < |VoutsMoves(tracked, txid, vs)| :: VoutsMoves(tracked, txid, vs)[k].Credit?
  {
    if vs != [] {
      OutputsOnlyCredit(tracked, txid, vs[..|vs| - 1]);
    }
  }

  /** The moves of a sequence of parts, one part after the other. */
  ghost function InTurn<T>(moves: T -> seq<Move>, parts: seq<T>): seq<Move> {
    if parts == [] then [] else moves(parts[0]) + InTurn(moves, parts[1..])
  }

  lemma {:induction false} InTurnSnoc<T>(moves: T -> seq<Move>, parts: seq<T>, last: T)
    ensures InTurn(moves, parts + [last]) == InTurn(moves, parts) + moves(last)
  {
    if parts == [] {
      assert parts + [last] == [last];
    } else {
      InTurnSnoc(moves, parts[1..], last);
      assert (parts + [last])[1..] == parts[1..] + [last];
    }
  }

  /** Transactions take effect in the order of the block. */
  lemma {:induction false} TxsInTurn(tracked: set<string>, txs: seq<Tx>, moves: Tx -> seq<Move>)
    requires forall tx :: moves(tx) == TxMoves(tracked, tx)
    ensures TxsMoves(tracked, txs) == InTurn(moves, txs)
  {
    if txs != [] {
      var front, last := txs[..|txs| - 1], txs[|txs| - 1];
      TxsInTurn(tracked, front, moves);
      InTurnSnoc(moves, front, last);
      assert txs == front + [last];
    }
  }

  /** Blocks take effect in the order of the chain. */
  lemma {:induction false} BlocksInTurn(tracked: set<string>, blocks: seq<Block>, moves: Block -> seq<Move>)
    requires forall b :: moves(b) == TxsMoves(tracked, b.txs)
    ensures ChainMoves(tracked, blocks) == InTurn(moves, blocks)
  {
    if blocks != [] {
      var front, last := blocks[..|blocks| - 1], blocks[|blocks| - 1];
      BlocksInTurn(tracked, front, moves);
      InTurnSnoc(moves, front, last);
      assert blocks == front + [last];
    }
  }

  lemma TxIncome(tracked: set<string>, tx: Tx, a: string)
    ensures Credited(TxMoves(tracked, tx), a) == Paid(tracked, tx.vouts, a)
  {
    InputsSpend(tx.vins);
    OutputsIncome(tracked, tx.txid, tx.vouts, a);
    CreditedConcat(VinsMoves(tx.vins), VoutsMoves(tracked, tx.txid, tx.vouts), a);
  }

  lemma {:induction false} TxsIncome(tracked: set<string>, txs: seq<Tx>, a: string)
    ensures Credited(TxsMoves(tracked, txs), a) == PaidByTxs(tracked, txs, a)
  {
    if txs != [] {
      TxsIncome(tracked, txs[..|txs| - 1], a);
      TxIncome(tracked, txs[|txs| - 1], a);
      CreditedConcat(TxsMoves(tracked, txs[..|txs| - 1]), TxMoves(tracked, txs[|txs| - 1]), a);
    }
  }

  /** What a chain credits an address is what its outputs pay to it. */
  lemma {:induction false} ChainIncome(tracked: set<string>, blocks: seq<Block>, a: string)
    ensures Credited(ChainMoves(tracked, blocks), a) == PaidByChain(tracked, blocks, a)
  {
    if blocks != [] {
      var front, last := blocks[..|blocks| - 1], blocks[|blocks| - 1];
      ChainIncome(tracked, front, a);
      TxsIncome(tracked, last.txs, a);
      CreditedConcat(ChainMoves(tracked, front), TxsMoves(tracked, last.txs), a);
    }
  }

  // ---------------------------------------------------------------- the ledger

  /** Tracked addresses, and only they, have a balance and own recorded outputs. */
  ghost predicate Closed(tracked: set<string>, l: Ledger) {
    l.balances.Keys == tracked && forall op | op in l.utxos :: l.utxos[op].address in tracked
  }

  ghost predicate MovesTracked(tracked: set<string>, ms: seq<Move>) {
    forall k | 0 <= k < |ms| && ms[k].Credit? :: ms[k].address in tracked
  }

  function Apply(l: Ledger, m: Move): Ledger {
    match m
    case Spend(op) =>
      if op !in l.utxos || l.utxos[op].address !in l.balances then l
      else
        var e := l.utxos[op];
        Ledger(l.balances[e.address := l.balances[e.address] - e.value], l.utxos - {op})
    case Credit(op, a, v) =>
      if a !in l.balances then l
      else Ledger(l.balances[a := l.balances[a] + v], l.utxos[op := Entry(a, v)])
  }

  function ApplyAll(l: Ledger, ms: seq<Move>): Ledger {
    if ms == [] then l else Apply(ApplyAll(l, ms[..|ms| - 1]), ms[|ms| - 1])
  }

  lemma {:induction false} ApplyAllConcat(l: Ledger, xs: seq<Move>, ys: seq<Move>)
    ensures ApplyAll(l, xs + ys) == ApplyAll(ApplyAll(l, xs), ys)
  {
    if ys == [] {
      assert xs + ys == xs;
    } else {
      var n := |ys| - 1;
      assert (xs + ys)[..|xs + ys| - 1] == xs + ys[..n];
      ApplyAllConcat(l, xs, ys[..n]);
    }
  }

  lemma ApplyKeepsClosed(tracked: set<string>, l: Ledger, m: Move)
    requires Closed(tracked, l) && (m.Credit? ==> m.address in tracked)
    ensures Closed(tracked, Apply(l, m))
  {
  }

  lemma {:induction false} ApplyAllKeepsClosed(tracked: set<string>, l: Ledger, ms: seq<Move>)
    requires Closed(tracked, l) && MovesTracked(tracked, ms)
    ensures Closed(tracked, ApplyAll(l, ms))
  {
    if ms != [] {
      ApplyAllKeepsClosed(tracked, l, ms[..|ms| - 1]);
      ApplyKeepsClosed(tracked, ApplyAll(l, ms[..|ms| - 1]), ms[|ms| - 1]);
    }
  }

  // ---------------------------------------------------------------- sums of live outputs

  function ValueFor(e: Entry, a: string): nat {
    if e.address == a then e.value else 0
  }

  ghost function Sum(u: Utxos, a: string): nat
    decreases |u|
  {
    if u == map[] then 0
    else
      var op :| op in u;
      ValueFor(u[op], a) + Sum(u - {op}, a)
  }

  /** Any output can be taken out of the sum first. */
  lemma {:induction false} SumTakesOut(u: Utxos, a: string, op: OutPoint)
    requires op in u
    ensures Sum(u, a) == ValueFor(u[op], a) + Sum(u - {op}, a)
    decreases |u|
  {
    var p :| p in u && Sum(u, a) == ValueFor(u[p], a) + Sum(u - {p}, a);
    if p != op {
      SumTakesOut(u - {p}, a, op);
      SumTakesOut(u - {op}, a, p);
      assert u - {p} - {op} == u - {op} - {p};
    }
  }

  lemma SumAdds(u: Utxos, a: string, op: OutPoint, e: Entry)
    requires op !in u
    ensures Sum(u[op := e], a) == ValueFor(e, a) + Sum(u, a)
  {
    SumTakesOut(u[op := e], a, op);
    assert u[op := e] - {op} == u;
  }

  /** Each tracked balance is the sum of the address's live outputs. */
  ghost predicate Agrees(l: Ledger) {
    forall a | a in l.balances :: l.balances[a] == Sum(l.utxos, a)
  }

  lemma SpendKeepsAgreement(l: Ledger, op: OutPoint)
    requires Agrees(l)
    ensures Agrees(Apply(l, Spend(op)))
  {
    if op in l.utxos && l.utxos[op].address in l.balances {
      var r := Apply(l, Spend(op));
      forall a | a in r.balances
        ensures r.balances[a] == Sum(r.utxos, a)
      {
        SumTakesOut(l.utxos, a, op);
      }
    }
  }

  /** A credit keeps the agreement exactly when it does not overwrite a live tracked output of value. */
  lemma CreditKeepsAgreementIff(tracked: set<string>, l: Ledger, op: OutPoint, a: string, v: nat)
    requires Closed(tracked, l) && Agrees(l) && a in tracked
    ensures Agrees(Apply(l, Credit(op, a, v))) <==> (op in l.utxos ==> l.utxos[op].value == 0)
  {
    var r := Apply(l, Credit(op, a, v));
    var base := l.utxos - {op};
    assert r.utxos == base[op := Entry(a, v)];
    forall b | b in l.balances
      ensures Sum(r.utxos, b) == ValueFor(Entry(a, v), b) + Sum(base, b)
      ensures Sum(l.utxos, b) == (if op in l.utxos then ValueFor(l.utxos[op], b) else 0) + Sum(base, b)
    {
      SumAdds(base, b, op, Entry(a, v));
      if op in l.utxos {
        SumTakesOut(l.utxos, b, op);
      } else {
        assert base == l.utxos;
      }
    }
    if op in l.utxos && l.utxos[op].value != 0 {
      var b := l.utxos[op].address;
      assert r.balances[b] != Sum(r.utxos, b);
    }
  }

  /** Every credited outpoint is new to the ledger when it is credited. */
  ghost predicate FreshCredits(l: Ledger, ms: seq<Move>)
    decreases |ms|
  {
    ms == [] || ((ms[0].Credit? ==> ms[0].op !in l.utxos) && FreshCredits(Apply(l, ms[0]), ms[1..]))
  }

  /** Credits to pairwise distinct outpoints, none of them in the ledger yet, are fresh whatever is
      spent between them. */
  ghost predicate DistinctCredits(ms: seq<Move>) {
    forall j, k | 0 <= j < k < |ms| && ms[j].Credit? && ms[k].Credit? :: ms[j].op != ms[k].op
  }

  lemma {:induction false} DistinctCreditsAreFresh(l: Ledger, ms: seq<Move>)
    requires DistinctCredits(ms) && forall k | 0 <= k < |ms| && ms[k].Credit? :: ms[k].op !in l.utxos
    ensures FreshCredits(l, ms)
    decreases |ms|
  {
    if ms != [] {
      var next, rest := Apply(l, ms[0]), ms[1..];
      forall k | 0 <= k < |rest| && rest[k].Credit?
        ensures rest[k].op !in next.utxos
      {
        assert rest[k] == ms[k + 1];
      }
      DistinctCreditsAreFresh(next, rest);
    }
  }

  /** Every credit of the run overwrites nothing, or a live output of value zero. */
  ghost predicate HarmlessCredits(l: Ledger, ms: seq<Move>)
    decreases |ms|
  {
    ms == [] ||
    (&& (ms[0].Credit? && ms[0].op in l.utxos ==> l.utxos[ms[0].op].value == 0)
     && HarmlessCredits(Apply(l, ms[0]), ms[1..]))
  }

  /** Value of the live outputs of an address that the credits of a run overwrite. */
  function Lost(l: Ledger, ms: seq<Move>, a: string): nat
    decreases |ms|
  {
    if ms == [] then 0
    else
      (if ms[0].Credit? && ms[0].op in l.utxos then ValueFor(l.utxos[ms[0].op], a) else 0)
      + Lost(Apply(l, ms[0]), ms[1..], a)
  }

  /** By how much a balance exceeds the sum of the live outputs. */
  ghost function Excess(l: Ledger, a: string): int
    requires a in l.balances
  {
    l.balances[a] - Sum(l.utxos, a)
  }

  lemma MoveAddsLost(tracked: set<string>, l: Ledger, m: Move, a: string)
    requires Closed(tracked, l) && (m.Credit? ==> m.address in tracked) && a in tracked
    ensures Closed(tracked, Apply(l, m))
    ensures Excess(Apply(l, m), a)
      == Excess(l, a) + (if m.Credit? && m.op in l.utxos then ValueFor(l.utxos[m.op], a) else 0)
  {
    if m.op in l.utxos {
      SumTakesOut(l.utxos, a, m.op);
    }
    if m.Credit? {
      var base := l.utxos - {m.op};
      SumAdds(base, a, m.op, Entry(m.address, m.value));
      assert l.utxos[m.op := Entry(m.address, m.value)] == base[m.op := Entry(m.address, m.value)];
      assert m.op !in l.utxos ==> base == l.utxos;
    }
  }

  /** Over any run the excess of a balance grows by exactly the value overwritten. */
  lemma {:induction false} ExcessIsLost(tracked: set<string>, l: Ledger, ms: seq<Move>, a: string)
    requires Closed(tracked, l) && MovesTracked(tracked, ms) && a in tracked
    ensures Closed(tracked, ApplyAll(l, ms))
    ensures Excess(ApplyAll(l, ms), a) == Excess(l, a) + Lost(l, ms, a)
    decreases |ms|
  {
    if ms != [] {
      MoveAddsLost(tracked, l, ms[0], a);
      ApplyAllFirst(l, ms);
      ExcessIsLost(tracked, Apply(l, ms[0]), ms[1..], a);
    }
  }

  lemma {:induction false} NothingLostIff(tracked: set<string>, l: Ledger, ms: seq<Move>)
    requires Closed(tracked, l) && MovesTracked(tracked, ms)
    ensures HarmlessCredits(l, ms) <==> forall a | a in tracked :: Lost(l, ms, a) == 0
    decreases |ms|
  {
    if ms != [] {
      var next, rest := Apply(l, ms[0]), ms[1..];
      ApplyKeepsClosed(tracked, l, ms[0]);
      NothingLostIff(tracked, next, rest);
      forall a | a in tracked
        ensures Lost(l, ms, a) == 0 ==> Lost(next, rest, a) == 0
        ensures HarmlessCredits(l, ms) ==> Lost(l, ms, a) == 0
      {
      }
      if ms[0].Credit? && ms[0].op in l.utxos && l.utxos[ms[0].op].value != 0 {
        var a := l.utxos[ms[0].op].address;
        assert Lost(l, ms, a) != 0;
      }
    }
  }

  /** From an agreeing ledger a whole run ends in agreement exactly when no credit overwrites a live
      output of value; what it breaks nothing later repairs. */
  lemma AgreementIff(tracked: set<string>, l: Ledger, ms: seq<Move>)
    requires Closed(tracked, l) && MovesTracked(tracked, ms) && Agrees(l)
    ensures Agrees(ApplyAll(l, ms)) <==> HarmlessCredits(l, ms)
  {
    ApplyAllKeepsClosed(tracked, l, ms);
    NothingLostIff(tracked, l, ms);
    forall a | a in tracked
      ensures Excess(ApplyAll(l, ms), a) == Lost(l, ms, a)
    {
      ExcessIsLost(tracked, l, ms, a);
    }
  }

  // ---------------------------------------------------------------- recomputing from the chain

  predicate SpentIn(ms: seq<Move>, op: OutPoint) {
    Spend(op) in ms
  }

  /** Balance recomputed from the chain alone: credits that no later move spends. */
  function Unspent(ms: seq<Move>, a: string): nat {
    if ms == [] then 0
    else
      (if ms[0].Credit? && ms[0].address == a && !SpentIn(ms[1..], ms[0].op) then ms[0].value else 0)
      + Unspent(ms[1..], a)
  }

  function Credited(ms: seq<Move>, a: string): nat {
    if ms == [] then 0
    else
      var m := ms[|ms| - 1];
      Credited(ms[..|ms| - 1], a) + (if m.Credit? && m.address == a then m.value else 0)
  }

  /** The output that the moves alone leave at an outpoint: the last credit to it, unless it was spent
      since. */
  function LiveAt(ms: seq<Move>, op: OutPoint): Option<Entry> {
    if ms == [] then None
    else
      var m := ms[|ms| - 1];
      if m.op != op then LiveAt(ms[..|ms| - 1], op)
      else if m.Credit? then Some(Entry(m.address, m.value))
      else None
  }

  function ValueOf(e: Option<Entry>, a: string): nat {
    if e.Some? then ValueFor(e.value, a) else 0
  }

  /** Value taken from an address: each spend takes the output it consumes. */
  function Spent(ms: seq<Move>, a: string): nat {
    if ms == [] then 0
    else
      var m := ms[|ms| - 1];
      Spent(ms[..|ms| - 1], a) + (if m.Spend? then ValueOf(LiveAt(ms[..|ms| - 1], m.op), a) else 0)
  }

  /** Value of the outputs of an address that a later credit overwrites. */
  function Overwritten(ms: seq<Move>, a: string): nat {
    if ms == [] then 0
    else
      var m := ms[|ms| - 1];
      Overwritten(ms[..|ms| - 1], a) + (if m.Credit? then ValueOf(LiveAt(ms[..|ms| - 1], m.op), a) else 0)
  }

  /** Live outputs that the given moves leave alone. */
  ghost function Surviving(u: Utxos, ms: seq<Move>): Utxos {
    map op | op in u && !SpentIn(ms, op) :: u[op]
  }

  lemma SpendSurvivors(u: Utxos, ms: seq<Move>)
    requires ms != [] && ms[0].Spend?
    ensures Surviving(u, ms) == Surviving(u - {ms[0].op}, ms[1..])
  {
    forall op
      ensures SpentIn(ms, op) <==> op == ms[0].op || SpentIn(ms[1..], op)
    {
      assert ms == [ms[0]] + ms[1..];
    }
  }

  lemma CreditSurvivors(u: Utxos, ms: seq<Move>)
    requires ms != [] && ms[0].Credit? && ms[0].op !in u
    ensures var e := Entry(ms[0].address, ms[0].value);
            Surviving(u[ms[0].op := e], ms[1..])
            == if SpentIn(ms[1..], ms[0].op) then Surviving(u, ms) else Surviving(u, ms)[ms[0].op := e]
  {
    forall op
      ensures SpentIn(ms, op) <==> SpentIn(ms[1..], op)
    {
      assert ms == [ms[0]] + ms[1..];
    }
  }

  lemma ApplyAllFirst(l: Ledger, ms: seq<Move>)
    requires ms != []
    ensures ApplyAll(l, ms) == ApplyAll(Apply(l, ms[0]), ms[1..])
  {
    assert ms == [ms[0]] + ms[1..];
    ApplyAllConcat(l, [ms[0]], ms[1..]);
    assert [ms[0]][..0] == [];
    assert ApplyAll(l, [ms[0]]) == Apply(ApplyAll(l, []), ms[0]);
  }

  /** From any agreeing ledger, replaying moves in place gives the surviving old outputs plus the new
      credits that are never spent. */
  lemma {:induction false} ReplayMatchesRecomputation(tracked: set<string>, l: Ledger, ms: seq<Move>, a: string)
    requires Closed(tracked, l) && Agrees(l) && MovesTracked(tracked, ms) && FreshCredits(l, ms) && a in tracked
    ensures a in ApplyAll(l, ms).balances
    ensures ApplyAll(l, ms).balances[a] == Sum(Surviving(l.utxos, ms), a) + Unspent(ms, a)
    ensures Agrees(ApplyAll(l, ms))
    decreases |ms|
  {
    if ms == [] {
      assert Surviving(l.utxos, ms) == l.utxos;
    } else {
      var m, rest := ms[0], ms[1..];
      var next := Apply(l, m);
      ApplyKeepsClosed(tracked, l, m);
      ApplyAllFirst(l, ms);
      match m
      case Spend(op) =>
        SpendKeepsAgreement(l, op);
        ReplayMatchesRecomputation(tracked, next, rest, a);
        SpendSurvivors(l.utxos, ms);
        if op !in l.utxos {
          assert l.utxos - {op} == l.utxos;
        }
      case Credit(op, b, v) =>
        CreditKeepsAgreementIff(tracked, l, op, b, v);
        ReplayMatchesRecomputation(tracked, next, rest, a);
        CreditSurvivors(l.utxos, ms);
        if !SpentIn(rest, op) {
          SumAdds(Surviving(l.utxos, ms), a, op, Entry(b, v));
        }
    }
  }

  // ---------------------------------------------------------------- from the empty ledger

  function ZeroBalances(tracked: set<string>): Balances {
    map a | a in tracked :: 0
  }

  function EmptyLedger(tracked: set<string>): Ledger {
    Ledger(ZeroBalances(tracked), map[])
  }

  lemma {:induction false} LiveIsLedger(tracked: set<string>, ms: seq<Move>, op: OutPoint)
    requires MovesTracked(tracked, ms)
    ensures var u := ApplyAll(EmptyLedger(tracked), ms).utxos;
            LiveAt(ms, op) == if op in u then Some(u[op]) else None
  {
    if ms != [] {
      LiveIsLedger(tracked, ms[..|ms| - 1], op);
      ApplyAllKeepsClosed(tracked, EmptyLedger(tracked), ms[..|ms| - 1]);
    }
  }

  /** For every sequence of tracked moves: the balance is what was credited minus what was spent, each
      spend valued at the output it consumes, and it is the sum of the live outputs plus what credits
      overwrote. So it is never negative. */
  lemma {:induction false} LedgerFromChain(tracked: set<string>, ms: seq<Move>, a: string)
    requires MovesTracked(tracked, ms) && a in tracked
    ensures var l := ApplyAll(EmptyLedger(tracked), ms);
            && a in l.balances
            && l.balances[a] == Credited(ms, a) - Spent(ms, a) == Sum(l.utxos, a) + Overwritten(ms, a)
  {
    if ms != [] {
      var front, m := ms[..|ms| - 1], ms[|ms| - 1];
      LedgerFromChain(tracked, front, a);
      ApplyAllKeepsClosed(tracked, EmptyLedger(tracked), front);
      LiveIsLedger(tracked, front, m.op);
      MoveAddsLost(tracked, ApplyAll(EmptyLedger(tracked), front), m, a);
    }
  }

  /** With distinct outpoints the balance is also the sum of the live outputs and of the credits never
      spent. */
  lemma DistinctMovesAgree(tracked: set<string>, ms: seq<Move>, a: string)
    requires MovesTracked(tracked, ms) && DistinctCredits(ms) && a in tracked
    ensures var l := ApplyAll(EmptyLedger(tracked), ms);
            && a in l.balances
            && l.balances[a] == Sum(l.utxos, a) == Unspent(ms, a)
  {
    var empty := EmptyLedger(tracked);
    DistinctCreditsAreFresh(empty, ms);
    ReplayMatchesRecomputation(tracked, empty, ms, a);
    assert Surviving(map[], ms) == map[];
  }

  /** Two recomputations from the chain alone agree: credits never spent, and credits minus spends. */
  lemma UnspentIsCreditedMinusSpent(ms: seq<Move>, a: string)
    requires DistinctCredits(ms)
    ensures Unspent(ms, a) == Credited(ms, a) - Spent(ms, a)
  {
    var tracked := {a} + set m | m in ms && m.Credit? :: m.address;
    DistinctMovesAgree(tracked, ms, a);
    LedgerFromChain(tracked, ms, a);
  }

  // ---------------------------------------------------------------- blocks and history

  /** `cmd_init`. */
  function Init(start: int, tracked: set<string>): State {
    State(start, start, tracked, EmptyLedger(tracked), map a | a in tracked :: map[start := 0])
  }

  function Record(history: map<string, map<int, int>>, balances: Balances, height: int): map<string, map<int, int>> {
    map a | a in history :: if a in balances then history[a][height := balances[a]] else history[a]
  }

  /** `cmd_apply_block`. */
  function ApplyBlock(s: State, b: Block): Result<State, string> {
    if b.height != s.current + 1 then Failure("oracle block height mismatch")
    else
      var l := ApplyAll(s.ledger, TxsMoves(s.tracked, b.txs));
      Success(s.(current := b.height, ledger := l, history := Record(s.history, l.balances, b.height)))
  }

  ghost predicate Contiguous(start: int, blocks: seq<Block>) {
    forall k | 0 <= k < |blocks| :: blocks[k].height == start + 1 + k
  }

  /** Ledger after the first n blocks, replayed from nothing. */
  function LedgerAfter(tracked: set<string>, blocks: seq<Block>, n: nat): Ledger
    requires n <= |blocks|
  {
    ApplyAll(EmptyLedger(tracked), ChainMoves(tracked, blocks[..n]))
  }

  /** The oracle's state against the blocks it was given. */
  ghost predicate Follows(s: State, blocks: seq<Block>) {
    && Contiguous(s.start, blocks) && s.current == s.start + |blocks|
    && s.ledger == LedgerAfter(s.tracked, blocks, |blocks|)
    && s.history.Keys == s.tracked
    && (forall a | a in s.tracked :: Recorded(s.start, |blocks|, s.history[a], BalanceAfter(s.tracked, blocks, a)))
  }

  lemma {:induction false} MovesAreTracked(tracked: set<string>, blocks: seq<Block>)
    ensures MovesTracked(tracked, ChainMoves(tracked, blocks))
  {
    if blocks != [] {
      MovesAreTracked(tracked, blocks[..|blocks| - 1]);
      TxsMovesAreTracked(tracked, blocks[|blocks| - 1].txs);
    }
  }

  lemma {:induction false} TxsMovesAreTracked(tracked: set<string>, txs: seq<Tx>)
    ensures MovesTracked(tracked, TxsMoves(tracked, txs))
  {
    if txs != [] {
      TxsMovesAreTracked(tracked, txs[..|txs| - 1]);
      VinsMovesAreTracked(tracked, txs[|txs| - 1].vins);
      VoutsMovesAreTracked(tracked, txs[|txs| - 1].txid, txs[|txs| - 1].vouts);
    }
  }

  lemma {:induction false} VinsMovesAreTracked(tracked: set<string>, vs: seq<Vin>)
    ensures MovesTracked(tracked, VinsMoves(vs))
  {
    if vs != [] {
      VinsMovesAreTracked(tracked, vs[..|vs| - 1]);
    }
  }

  lemma {:induction false} VoutsMovesAreTracked(tracked: set<string>, txid: string, vs: seq<Vout>)
    ensures MovesTracked(tracked, VoutsMoves(tracked, txid, vs))
  {
    if vs != [] {
      VoutsMovesAreTracked(tracked, txid, vs[..|vs| - 1]);
      FirstTrackedIsTracked(tracked, Addresses(vs[|vs| - 1]));
    }
  }

  lemma LedgerIsClosed(tracked: set<string>, blocks: seq<Block>, n: nat)
    requires n <= |blocks|
    ensures Closed(tracked, LedgerAfter(tracked, blocks, n))
  {
    MovesAreTracked(tracked, blocks[..n]);
    ApplyAllKeepsClosed(tracked, Ledger(ZeroBalances(tracked), map[]), ChainMoves(tracked, blocks[..n]));
  }

  lemma InitFollows(start: int, tracked: set<string>)
    ensures Follows(Init(start, tracked), [])
  {
    var none: seq<Block> := [];
    assert none[..0] == none;
  }

  lemma LedgerExtends(tracked: set<string>, blocks: seq<Block>, b: Block)
    ensures LedgerAfter(tracked, blocks + [b], |blocks| + 1)
            == ApplyAll(LedgerAfter(tracked, blocks, |blocks|), TxsMoves(tracked, b.txs))
    ensures forall n | 0 <= n <= |blocks| :: LedgerAfter(tracked, blocks + [b], n) == LedgerAfter(tracked, blocks, n)
  {
    var more := blocks + [b];
    assert more[..|more|] == more && more[..|blocks|] == blocks && blocks[..|blocks|] == blocks;
    ApplyAllConcat(Ledger(ZeroBalances(tracked), map[]), ChainMoves(tracked, blocks), TxsMoves(tracked, b.txs));
    forall n | 0 <= n <= |blocks|
      ensures LedgerAfter(tracked, more, n) == LedgerAfter(tracked, blocks, n)
    {
      assert more[..n] == blocks[..n];
    }
  }

  /** Balance of an address after the first n blocks, as a function of n. */
  function BalanceAfter(tracked: set<string>, blocks: seq<Block>, a: string): nat -> int {
    (n: nat) => if n <= |blocks| && a in LedgerAfter(tracked, blocks, n).balances
         then LedgerAfter(tracked, blocks, n).balances[a] else 0
  }

  /** The recorded heights are start to start + n, each with the balance there. */
  ghost predicate Recorded(start: int, n: nat, recorded: map<int, int>, balance: nat -> int) {
    && (forall h :: h in recorded <==> start <= h <= start + n)
    && (forall h | start <= h <= start + n :: recorded[h] == balance(h - start))
  }

  lemma RecordExtends(start: int, n: nat, recorded: map<int, int>, balance: nat -> int, next: nat -> int)
    requires Recorded(start, n, recorded, balance) && forall i | 0 <= i <= n :: next(i) == balance(i)
    ensures Recorded(start, n + 1, recorded[start + n + 1 := next(n + 1)], next)
  {
  }

  lemma BalanceExtends(tracked: set<string>, blocks: seq<Block>, b: Block, a: string)
    ensures forall i | 0 <= i <= |blocks| ::
              BalanceAfter(tracked, blocks + [b], a)(i) == BalanceAfter(tracked, blocks, a)(i)
  {
    LedgerExtends(tracked, blocks, b);
  }

  /** The height check accepts exactly the next block, and the state then follows the longer chain. */
  lemma BlockFollows(s: State, blocks: seq<Block>, b: Block)
    requires Follows(s, blocks)
    ensures ApplyBlock(s, b).Success? <==> Contiguous(s.start, blocks + [b])
    ensures ApplyBlock(s, b).Success? ==> Follows(ApplyBlock(s, b).value, blocks + [b])
  {
    assert (blocks + [b])[|blocks|] == b;
    if ApplyBlock(s, b).Success? {
      NextFollows(s, blocks, b, ApplyBlock(s, b).value);
    }
  }

  lemma NextFollows(s: State, blocks: seq<Block>, b: Block, next: State)
    requires Follows(s, blocks) && ApplyBlock(s, b) == Success(next)
    ensures Follows(next, blocks + [b])
  {
    LedgerExtends(s.tracked, blocks, b);
    LedgerIsClosed(s.tracked, blocks + [b], |blocks| + 1);
    var l := LedgerAfter(s.tracked, blocks + [b], |blocks| + 1);
    assert next.ledger == l && next.history == Record(s.history, l.balances, b.height);
    HistoryExtends(s.start, s.tracked, blocks, s.history, b, l);
  }

  lemma HistoryExtends(start: int, tracked: set<string>, blocks: seq<Block>, history: map<string, map<int, int>>, b: Block,
                       l: Ledger)
    requires history.Keys == tracked == l.balances.Keys && b.height == start + |blocks| + 1
    requires l == LedgerAfter(tracked, blocks + [b], |blocks| + 1)
    requires forall a | a in tracked :: Recorded(start, |blocks|, history[a], BalanceAfter(tracked, blocks, a))
    ensures var next := Record(history, l.balances, b.height);
            && next.Keys == tracked
            && forall a | a in tracked ::
                 Recorded(start, |blocks| + 1, next[a], BalanceAfter(tracked, blocks + [b], a))
  {
    forall a | a in tracked
      ensures Recorded(start, |blocks| + 1, history[a][b.height := l.balances[a]], BalanceAfter(tracked, blocks + [b], a))
    {
      AddressExtends(start, tracked, blocks, history[a], b, l, a);
    }
  }

  lemma AddressExtends(start: int, tracked: set<string>, blocks: seq<Block>, recorded: map<int, int>, b: Block, l: Ledger,
                       a: string)
    requires a in l.balances && b.height == start + |blocks| + 1
    requires l == LedgerAfter(tracked, blocks + [b], |blocks| + 1)
    requires Recorded(start, |blocks|, recorded, BalanceAfter(tracked, blocks, a))
    ensures Recorded(start, |blocks| + 1, recorded[b.height := l.balances[a]], BalanceAfter(tracked, blocks + [b], a))
  {
    BalanceExtends(tracked, blocks, b, a);
    var next := BalanceAfter(tracked, blocks + [b], a);
    assert next(|blocks| + 1) == l.balances[a];
    RecordExtends(start, |blocks|, recorded, BalanceAfter(tracked, blocks, a), next);
  }

  /** What a query at or before height h must answer: the balance after replaying exactly the blocks up
      to the smaller of h and the current height, and nothing before the start. */
  function BalanceAt(tracked: set<string>, start: int, current: int, blocks: seq<Block>, a: string, h: int): int
    requires current == start + |blocks|
  {
    if h < start then 0 else BalanceAfter(tracked, blocks, a)((if h < current then h else current) - start)
  }

  /** Ledger agreement for whole chains: with distinct outpoints each tracked balance after the chain is
      the sum of the live outputs, the credits never spent, and total credited minus total spent. */
  lemma ChainAgreement(tracked: set<string>, blocks: seq<Block>, a: string)
    requires a in tracked && DistinctCredits(ChainMoves(tracked, blocks))
    ensures var l := LedgerAfter(tracked, blocks, |blocks|);
            var ms := ChainMoves(tracked, blocks);
            && a in l.balances
            && l.balances[a] == Sum(l.utxos, a) == Unspent(ms, a) == PaidByChain(tracked, blocks, a) - Spent(ms, a)
            && l.balances[a] >= 0
  {
    var ms := ChainMoves(tracked, blocks);
    MovesAreTracked(tracked, blocks);
    ChainIncome(tracked, blocks, a);
    DistinctMovesAgree(tracked, ms, a);
    UnspentIsCreditedMinusSpent(ms, a);
    assert blocks[..|blocks|] == blocks;
  }

  /** For every chain whatever: balances are what its outputs pay minus what is spent, never negative,
      and they agree with the live outputs exactly when no output of value is overwritten. */
  lemma ChainAgreementIff(tracked: set<string>, blocks: seq<Block>)
    ensures var l := LedgerAfter(tracked, blocks, |blocks|);
            var ms := ChainMoves(tracked, blocks);
            && l.balances.Keys == tracked
            && (forall a | a in tracked :: l.balances[a] == PaidByChain(tracked, blocks, a) - Spent(ms, a) >= 0)
            && (Agrees(l) <==> forall a | a in tracked :: Overwritten(ms, a) == 0)
  {
    var ms := ChainMoves(tracked, blocks);
    MovesAreTracked(tracked, blocks);
    assert blocks[..|blocks|] == blocks;
    ApplyAllKeepsClosed(tracked, EmptyLedger(tracked), ms);
    forall a | a in tracked
      ensures var l := ApplyAll(EmptyLedger(tracked), ms);
              l.balances[a] == PaidByChain(tracked, blocks, a) - Spent(ms, a) == Sum(l.utxos, a) + Overwritten(ms, a)
    {
      LedgerFromChain(tracked, ms, a);
      ChainIncome(tracked, blocks, a);
    }
  }

  /** A query about a tracked address answers nothing before the start; from there on, what the outputs of
      the first n blocks pay less what those blocks spend, where the n-th is the last block not above h. */
  lemma QueryAnswers(tracked: set<string>, start: int, blocks: seq<Block>, a: string, h: int)
    requires a in tracked
    ensures var r := BalanceAt(tracked, start, start + |blocks|, blocks, a, h);
            && (h < start ==> r == 0)
            && forall n: nat | n <= |blocks| && start + n <= h && (n < |blocks| ==> h < start + n + 1) ::
                 r == PaidByChain(tracked, blocks[..n], a) - Spent(ChainMoves(tracked, blocks[..n]), a)
  {
    forall n: nat | n <= |blocks| && start + n <= h && (n < |blocks| ==> h < start + n + 1)
      ensures BalanceAfter(tracked, blocks, a)(n)
              == PaidByChain(tracked, blocks[..n], a) - Spent(ChainMoves(tracked, blocks[..n]), a)
    {
      var early := blocks[..n];
      ChainAgreementIff(tracked, early);
      assert early[..|early|] == early;
    }
  }

  // ---------------------------------------------------------------- in place

  class Oracle {
    var start: int
    var current: int
    var tracked: set<string>
    var balances: Balances
    var utxos: Utxos
    var history: map<string, map<int, int>>

    ghost function Value(): State
      reads this
    {
      State(start, current, tracked, Ledger(balances, utxos), history)
    }

    ghost predicate Valid(blocks: seq<Block>)
      reads this
    {
      Follows(Value(), blocks)
    }

    constructor (start: int, addresses: set<string>)
      ensures Value() == Init(start, addresses)
      ensures Valid([])
    {
      this.start := start;
      current := start;
      tracked := addresses;
      balances := map a | a in addresses :: 0;
      utxos := map[];
      history := map a | a in addresses :: map[start := 0];
      new;
      InitFollows(start, addresses);
    }

    /** Inputs of one transaction. */
    method SpendInputs(vins: seq<Vin>)
      requires Closed(tracked, Ledger(balances, utxos))
      modifies this`balances, this`utxos
      ensures Ledger(balances, utxos) == ApplyAll(old(Ledger(balances, utxos)), VinsMoves(vins))
      ensures Closed(tracked, Ledger(balances, utxos))
    {
      var i := 0;
      while i < |vins|
        invariant 0 <= i <= |vins|
        invariant Ledger(balances, utxos) == ApplyAll(old(Ledger(balances, utxos)), VinsMoves(vins[..i]))
        invariant Closed(tracked, Ledger(balances, utxos))
      {
        assert vins[..i + 1][..i] == vins[..i];
        SpendInput(vins[i]);
        ApplyAllConcat(old(Ledger(balances, utxos)), VinsMoves(vins[..i]), VinMoves(vins[i]));
        i := i + 1;
      }
      assert vins[..i] == vins;
    }

    method SpendInput(v: Vin)
      requires Closed(tracked, Ledger(balances, utxos))
      modifies this`balances, this`utxos
      ensures Ledger(balances, utxos) == ApplyAll(old(Ledger(balances, utxos)), VinMoves(v))
      ensures Closed(tracked, Ledger(balances, utxos))
    {
      if v.prev.None? {
        return;
      }
      var op := v.prev.value;
      ghost var ms := VinMoves(v);
      assert ms == [Spend(op)] && ms[..0] == [];
      if op in utxos {
        var e := utxos[op];
        utxos := utxos - {op};
        balances := balances[e.address := balances[e.address] - e.value];
      }
    }

    /** Outputs of one transaction: the first tracked address of each is credited. */
    method CreditOutputs(txid: string, vouts: seq<Vout>)
      requires Closed(tracked, Ledger(balances, utxos))
      modifies this`balances, this`utxos
      ensures Ledger(balances, utxos) == ApplyAll(old(Ledger(balances, utxos)), VoutsMoves(tracked, txid, vouts))
      ensures Closed(tracked, Ledger(balances, utxos))
    {
      var i := 0;
      while i < |vouts|
        invariant 0 <= i <= |vouts|
        invariant Ledger(balances, utxos) == ApplyAll(old(Ledger(balances, utxos)), VoutsMoves(tracked, txid, vouts[..i]))
        invariant Closed(tracked, Ledger(balances, utxos))
      {
        assert vouts[..i + 1][..i] == vouts[..i];
        CreditOutput(txid, vouts[i]);
        ApplyAllConcat(old(Ledger(balances, utxos)), VoutsMoves(tracked, txid, vouts[..i]),
                       VoutMoves(tracked, txid, vouts[i]));
        i := i + 1;
      }
      assert vouts[..i] == vouts;
    }

    method CreditOutput(txid: string, v: Vout)
      requires Closed(tracked, Ledger(balances, utxos))
      modifies this`balances, this`utxos
      ensures Ledger(balances, utxos) == ApplyAll(old(Ledger(balances, utxos)), VoutMoves(tracked, txid, v))
      ensures Closed(tracked, Ledger(balances, utxos))
    {
      var addresses := Addresses(v);
      var k := 0;
      while k < |addresses|
        invariant 0 <= k <= |addresses|
        invariant FirstTracked(tracked, addresses) == FirstTracked(tracked, addresses[k..])
        invariant balances == old(balances) && utxos == old(utxos)
      {
        var a := addresses[k];
        assert addresses[k..][1..] == addresses[k + 1..];
        if a in tracked {
          balances := balances[a := balances[a] + v.sat];
          utxos := utxos[OutPoint(txid, v.n) := Entry(a, v.sat)];
          ghost var ms := VoutMoves(tracked, txid, v);
          assert ms == [Credit(OutPoint(txid, v.n), a, v.sat)] && ms[..0] == [];
          return;
        }
        k := k + 1;
      }
      assert addresses[k..] == [];
    }

    /** `cmd_apply_block`. */
    method AddBlock(b: Block, ghost blocks: seq<Block>) returns (r: Result<int, string>)
      requires Valid(blocks)
      modifies this
      ensures r.Success? <==> Contiguous(old(start), blocks + [b])
      ensures r.Success? ==> ApplyBlock(old(Value()), b) == Success(Value()) && Valid(blocks + [b])
      ensures r.Failure? ==> Value() == old(Value())
    {
      BlockFollows(Value(), blocks, b);
      if b.height != current + 1 {
        return Failure("oracle block height mismatch");
      }
      LedgerIsClosed(tracked, blocks, |blocks|);
      AddTransactions(b.txs);
      RecordBalances(b.height);
      current := b.height;
      r := Success(current);
    }

    method AddTransactions(txs: seq<Tx>)
      requires Closed(tracked, Ledger(balances, utxos))
      modifies this`balances, this`utxos
      ensures Ledger(balances, utxos) == ApplyAll(old(Ledger(balances, utxos)), TxsMoves(tracked, txs))
      ensures Closed(tracked, Ledger(balances, utxos))
    {
      ghost var l0 := Ledger(balances, utxos);
      var i := 0;
      while i < |txs|
        invariant 0 <= i <= |txs|
        invariant Ledger(balances, utxos) == ApplyAll(l0, TxsMoves(tracked, txs[..i]))
        invariant Closed(tracked, Ledger(balances, utxos))
      {
        assert txs[..i + 1][..i] == txs[..i];
        ghost var l1 := Ledger(balances, utxos);
        SpendInputs(txs[i].vins);
        CreditOutputs(txs[i].txid, txs[i].vouts);
        ApplyAllConcat(l1, VinsMoves(txs[i].vins), VoutsMoves(tracked, txs[i].txid, txs[i].vouts));
        ApplyAllConcat(l0, TxsMoves(tracked, txs[..i]), TxMoves(tracked, txs[i]));
        i := i + 1;
      }
      assert txs[..i] == txs;
    }

    method RecordBalances(height: int)
      requires history.Keys == balances.Keys
      modifies this`history
      ensures history == Record(old(history), balances, height)
    {
      var left := balances.Keys;
      while left != {}
        invariant left <= balances.Keys && history.Keys == balances.Keys
        invariant forall a | a in history ::
                    history[a] == if a in left then old(history)[a] else old(history)[a][height := balances[a]]
        decreases left
      {
        var a :| a in left;
        history := history[a := history[a][height := balances[a]]];
        left := left - {a};
      }
    }

    /** `cmd_get_balance`: scans the recorded heights in order with a running latest value. */
    method GetBalance(a: string, h: int, ghost blocks: seq<Block>) returns (r: Result<int, string>)
      requires Valid(blocks)
      ensures r.Failure? <==> a !in tracked
      ensures r.Success? ==> r.value == BalanceAt(tracked, start, current, blocks, a, h)
    {
      if a !in history {
        return Failure("address is not tracked");
      }
      var recorded := history[a];
      ghost var balance := BalanceAfter(tracked, blocks, a);
      assert Recorded(start, |blocks|, recorded, balance);
      var heights := SortHeights(recorded.Keys);
      var latest := ScanHeights(heights, recorded, h, start, current);
      r := Success(latest);
    }
  }

  /** The running scan of a balance query. */
  method ScanHeights(heights: seq<int>, recorded: map<int, int>, h: int, ghost start: int, ghost current: int)
    returns (latest: int)
    requires start <= current && forall i, j | 0 <= i < j < |heights| :: heights[i] < heights[j]
    requires forall x :: x in heights <==> start <= x <= current
    requires forall x | x in heights :: x in recorded
    ensures (if h < current then h else current) in recorded || h < start
    ensures latest == if h < start then 0 else recorded[if h < current then h else current]
  {
    latest := 0;
    var k := 0;
    while k < |heights|
      invariant 0 <= k <= |heights|
      invariant forall j | 0 <= j < k :: heights[j] <= h
      invariant k > 0 ==> heights[k - 1] in recorded
      invariant latest == if k == 0 then 0 else recorded[heights[k - 1]]
    {
      if heights[k] > h {
        break;
      }
      latest := recorded[heights[k]];
      k := k + 1;
    }
    LastAtOrBefore(heights, start, current, h, k);
  }

  /** Of the sorted heights from start to current, those at or below h end at the smaller of h and current. */
  lemma LastAtOrBefore(heights: seq<int>, start: int, current: int, h: int, k: nat)
    requires k <= |heights| && start <= current
    requires forall i, j | 0 <= i < j < |heights| :: heights[i] < heights[j]
    requires forall x :: x in heights <==> start <= x <= current
    requires forall j | 0 <= j < k :: heights[j] <= h
    requires k < |heights| ==> heights[k] > h
    ensures k == 0 <==> h < start
    ensures k > 0 ==> heights[k - 1] == if h < current then h else current
  {
    assert start in heights && current in heights;
    if k > 0 {
      assert heights[0] in heights && heights[k - 1] in heights;
    }
    if h >= start {
      var top := if h < current then h else current;
      assert top in heights;
      var j :| 0 <= j < |heights| && heights[j] == top;
      assert j < k;
    }
  }

  method SortHeights(keys: set<int>) returns (s: seq<int>)
    ensures forall i, j | 0 <= i < j < |s| :: s[i] < s[j]
    ensures forall x :: x in s <==> x in keys
  {
    s := [];
    var left := keys;
    while left != {}
      invariant left <= keys
      invariant forall x :: x in s <==> x in keys - left
      invariant forall i, j | 0 <= i < j < |s| :: s[i] < s[j]
      invariant forall x, y | x in s && y in left :: x < y
      decreases left
    {
      var least := Least(left);
      assert forall i | 0 <= i < |s| :: s[i] in s;
      s := s + [least];
      left := left - {least};
    }
  }

  lemma HasMember(keys: set<int>)
    requires keys != {}
    ensures exists x :: x in keys
  {
    if forall x :: x !in keys {
      assert false;
    }
  }

  method Least(keys: set<int>) returns (m: int)
    requires keys != {}
    ensures m in keys && forall x | x in keys :: m <= x
  {
    HasMember(keys);
    m :| m in keys;
    var left := keys - {m};
    while left != {}
      invariant left <= keys && m in keys
      invariant forall x | x in keys && x !in left :: m <= x
      decreases left
    {
      HasMember(left);
      var x :| x in left;
      if x < m {
        m := x;
      }
      left := left - {x};
    }
  }
}
