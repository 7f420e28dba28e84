/** Reading identity streams back, field by field in the order in which a node feeds them to its hash.
    The reader knows nothing of how the streams are built: numbers come high byte first, texts carry a
    four-byte length, options a marker byte. */
module IdentityReader {
  import opened Wrappers
  import opened CanonicalIdentity

  type Reading<T> = Result<(T, Bytes), string>

  /** Value of a run of bytes, high byte first. */
  function Number(b: Bytes): nat {
    if b == [] then 0 else 256 * Number(b[..|b| - 1]) + b[|b| - 1]
  }

  function TakeNumber(b: Bytes, width: nat): Reading<nat> {
    if |b| < width then Failure("too short") else Success((Number(b[..width]), b[width..]))
  }

  function TakeU32(b: Bytes): Reading<U32> {
    var (n, rest) :- TakeNumber(b, 4);
    if n < 0x1_0000_0000 then Success((n, rest)) else Failure("out of range")
  }

  function TakeU64(b: Bytes): Reading<U64> {
    var (n, rest) :- TakeNumber(b, 8);
    if n < 0x1_0000_0000_0000_0000 then Success((n, rest)) else Failure("out of range")
  }

  function TakeText(b: Bytes): Reading<Bytes> {
    var (n, rest) :- TakeNumber(b, 4);
    if |rest| < n then Failure("too short") else Success((rest[..n], rest[n..]))
  }

  /** The text must be this one. */
  function TakeLiteral(b: Bytes, literal: string): Result<Bytes, string> {
    var (s, rest) :- TakeText(b);
    if |s| == |literal| && forall i | 0 <= i < |s| :: s[i] == literal[i] as int then Success(rest)
    else Failure("wrong version")
  }

  function TakeMarker(b: Bytes): Reading<bool> {
    if b == [] then Failure("too short")
    else if b[0] == 0 then Success((false, b[1..]))
    else if b[0] == 1 then Success((true, b[1..]))
    else Failure("bad marker")
  }

  function AtEnd<T>(t: T, rest: Bytes): Result<T, string> {
    if rest == [] then Success(t) else Failure("bytes left over")
  }

  // ---------------------------------------------------------------- the three identities

  function ReadSnapshot(b: Bytes): Result<Snapshot, string> {
    var b0 :- TakeLiteral(b, "btc-consensus-snapshot:v1");
    var (sourceChain, b1) :- TakeText(b0);
    var (network, b2) :- TakeText(b1);
    var (stableHeight, b3) :- TakeU32(b2);
    var (stableBlockHash, b4) :- TakeText(b3);
    var (stableLag, b5) :- TakeU32(b4);
    var (apiVersion, b6) :- TakeText(b5);
    var (semanticsVersion, b7) :- TakeText(b6);
    var (formulaVersion, b8) :- TakeText(b7);
    var (protocolVersion, b9) :- TakeText(b8);
    AtEnd(Snapshot(sourceChain, network, stableHeight, stableBlockHash, stableLag, apiVersion, semanticsVersion,
                   formulaVersion, protocolVersion), b9)
  }

  function TakeCommit(b: Bytes): Reading<Option<PassCommit>> {
    var (present, b0) :- TakeMarker(b);
    if !present then Success((None, b0))
    else
      var (blockHeight, b1) :- TakeU32(b0);
      var (blockCommit, b2) :- TakeText(b1);
      var (protocolVersion, b3) :- TakeText(b2);
      var (hashAlgo, b4) :- TakeText(b3);
      Success((Some(PassCommit(blockHeight, blockCommit, protocolVersion, hashAlgo)), b4))
  }

  function TakeBalance(b: Bytes): Reading<Option<ActiveBalance>> {
    var (present, b0) :- TakeMarker(b);
    if !present then Success((None, b0))
    else
      var (blockHeight, b1) :- TakeU32(b0);
      var (totalBalance, b2) :- TakeU64(b1);
      var (addressCount, b3) :- TakeU32(b2);
      Success((Some(ActiveBalance(blockHeight, totalBalance, addressCount)), b3))
  }

  function ReadLocal(b: Bytes): Result<LocalState, string> {
    var b0 :- TakeLiteral(b, "usdb-local-state:v1");
    var (upstreamSnapshotId, b1) :- TakeText(b0);
    var (syncedHeight, b2) :- TakeU32(b1);
    var (passCommit, b3) :- TakeCommit(b2);
    var (activeBalance, b4) :- TakeBalance(b3);
    var (protocolVersion, b5) :- TakeText(b4);
    AtEnd(LocalState(upstreamSnapshotId, syncedHeight, passCommit, activeBalance, protocolVersion), b5)
  }

  function ReadSystem(b: Bytes): Result<SystemState, string> {
    var b0 :- TakeLiteral(b, "btc-system-state:v1");
    var (upstreamSnapshotId, b1) :- TakeText(b0);
    var (localStateCommit, b2) :- TakeText(b1);
    AtEnd(SystemState(upstreamSnapshotId, localStateCommit), b2)
  }

  // ---------------------------------------------------------------- pieces

  lemma NumberSnoc(b: Bytes, x: Byte)
    ensures Number(b + [x]) == 256 * Number(b) + x
  {
    assert (b + [x])[..|b|] == b;
  }

  /** Four more bytes shift the value by four bytes. */
  lemma NumberOfFourMore(a: Bytes, w: Byte, x: Byte, y: Byte, z: Byte)
    ensures Number(a + [w, x, y, z]) == 256 * (256 * (256 * (256 * Number(a) + w) + x) + y) + z
  {
    NumberSnoc(a, w);
    NumberSnoc(a + [w], x);
    NumberSnoc(a + [w] + [x], y);
    NumberSnoc(a + [w] + [x] + [y], z);
    assert a + [w, x, y, z] == a + [w] + [x] + [y] + [z];
  }

  lemma NumberOfBe32(a: Bytes, n: U32)
    ensures Number(a + Be32(n)) == 0x1_0000_0000 * Number(a) + n
  {
    var b := Be32(n);
    NumberOfFourMore(a, b[0], b[1], b[2], b[3]);
    assert b == [b[0], b[1], b[2], b[3]];
    Be32RoundTrip(n);
  }

  lemma U32Read(n: U32, rest: Bytes)
    ensures TakeU32(Be32(n) + rest) == Success((n, rest))
    ensures TakeNumber(Be32(n) + rest, 4) == Success((n, rest))
  {
    var b := Be32(n) + rest;
    assert b[..4] == Be32(n) && b[4..] == rest;
    NumberOfBe32([], n);
    assert [] + Be32(n) == Be32(n);
  }

  lemma U64Read(n: U64, rest: Bytes)
    ensures TakeU64(Be64(n) + rest) == Success((n, rest))
  {
    var b := Be64(n) + rest;
    assert b[..8] == Be64(n) && b[8..] == rest;
    var high, low := n / 0x1_0000_0000, n % 0x1_0000_0000;
    NumberOfBe32([], high);
    NumberOfBe32(Be32(high), low);
    assert [] + Be32(high) == Be32(high);
  }

  lemma TextRead(s: Bytes, rest: Bytes)
    requires Short(s)
    ensures TakeText(Text(s) + rest) == Success((s, rest))
  {
    NoTruncation(|s|);
    assert Text(s) + rest == Be32(|s| % TWO32) + (s + rest);
    U32Read(|s| % TWO32, s + rest);
    assert (s + rest)[..|s|] == s && (s + rest)[|s|..] == rest;
  }

  lemma LiteralRead(literal: string, rest: Bytes)
    requires |literal| < 100 && forall i | 0 <= i < |literal| :: literal[i] < '\U{80}'
    ensures TakeLiteral(Text(Ascii(literal)) + rest, literal) == Success(rest)
  {
    TextRead(Ascii(literal), rest);
  }

  lemma MarkerRead(present: bool, rest: Bytes)
    ensures TakeMarker(Marker(present) + rest) == Success((present, rest))
  {
    assert (Marker(present) + rest)[1..] == rest;
  }

  lemma Regroup(a: Bytes, b: Bytes, c: Bytes, d: Bytes, rest: Bytes)
    ensures (a + (b + (c + d))) + rest == a + (b + (c + (d + rest)))
  {
  }

  lemma CommitRead(c: Option<PassCommit>, rest: Bytes)
    requires c.Some? ==> ShortCommit(c.value)
    ensures TakeCommit(CommitPart(c) + rest) == Success((c, rest))
  {
    var body := if c.Some? then CommitBytes(c.value) else [];
    assert CommitPart(c) + rest == Marker(c.Some?) + (body + rest);
    MarkerRead(c.Some?, body + rest);
    if c.Some? {
      var v := c.value;
      var r3 := Text(v.hashAlgo) + rest;
      var r2 := Text(v.protocolVersion) + r3;
      var r1 := Text(v.blockCommit) + r2;
      Regroup(Be32(v.blockHeight), Text(v.blockCommit), Text(v.protocolVersion), Text(v.hashAlgo), rest);
      U32Read(v.blockHeight, r1);
      TextRead(v.blockCommit, r2);
      TextRead(v.protocolVersion, r3);
      TextRead(v.hashAlgo, rest);
    } else {
      assert body + rest == rest;
    }
  }

  lemma BalanceRead(a: Option<ActiveBalance>, rest: Bytes)
    ensures TakeBalance(BalancePart(a) + rest) == Success((a, rest))
  {
    var body := if a.Some? then BalanceBytes(a.value) else [];
    assert BalancePart(a) + rest == Marker(a.Some?) + (body + rest);
    MarkerRead(a.Some?, body + rest);
    if a.Some? {
      var v := a.value;
      var r2 := Be32(v.addressCount) + rest;
      var r1 := Be64(v.totalBalance) + r2;
      Regroup(Be32(v.blockHeight), [], Be64(v.totalBalance), Be32(v.addressCount), rest);
      assert [] + (Be64(v.totalBalance) + Be32(v.addressCount)) == Be64(v.totalBalance) + Be32(v.addressCount);
      assert [] + r1 == r1;
      U32Read(v.blockHeight, r1);
      U64Read(v.totalBalance, r2);
      U32Read(v.addressCount, rest);
    } else {
      assert body + rest == rest;
    }
  }

  lemma LastTextRead(s: Bytes)
    requires Short(s)
    ensures TakeText(Text(s)) == Success((s, []))
  {
    TextRead(s, []);
    assert Text(s) + [] == Text(s);
  }

  // ---------------------------------------------------------------- whole streams

  /** The stream of a snapshot identity reads back as the identity. */
  lemma SnapshotReads(i: Snapshot)
    requires ShortSnapshot(i)
    ensures ReadSnapshot(SnapshotPreimage(i)) == Success(i)
  {
    var r8 := Text(i.protocolVersion);
    var r7 := Text(i.formulaVersion) + r8;
    var r6 := Text(i.historySemanticsVersion) + r7;
    var r5 := Text(i.historyApiVersion) + r6;
    var r4 := Be32(i.stableLag) + r5;
    var r3 := Text(i.stableBlockHash) + r4;
    var r2 := Be32(i.stableHeight) + r3;
    var r1 := Text(i.network) + r2;
    LiteralRead("btc-consensus-snapshot:v1", Text(i.sourceChain) + r1);
    TextRead(i.sourceChain, r1);
    TextRead(i.network, r2);
    U32Read(i.stableHeight, r3);
    TextRead(i.stableBlockHash, r4);
    U32Read(i.stableLag, r5);
    TextRead(i.historyApiVersion, r6);
    TextRead(i.historySemanticsVersion, r7);
    TextRead(i.formulaVersion, r8);
    LastTextRead(i.protocolVersion);
  }

  /** The stream of a local state reads back as the local state, absent and present options included. */
  lemma LocalReads(i: LocalState)
    requires ShortLocal(i)
    ensures ReadLocal(LocalPreimage(i)) == Success(i)
  {
    var r4 := Text(i.protocolVersion);
    var r3 := BalancePart(i.activeBalance) + r4;
    var r2 := CommitPart(i.passCommit) + r3;
    var r1 := Be32(i.syncedHeight) + r2;
    LiteralRead("usdb-local-state:v1", Text(i.upstreamSnapshotId) + r1);
    TextRead(i.upstreamSnapshotId, r1);
    U32Read(i.syncedHeight, r2);
    CommitRead(i.passCommit, r3);
    BalanceRead(i.activeBalance, r4);
    LastTextRead(i.protocolVersion);
  }

  /** The stream of a system state reads back as the system state. */
  lemma SystemReads(i: SystemState)
    requires ShortSystem(i)
    ensures ReadSystem(SystemPreimage(i)) == Success(i)
  {
    var r1 := Text(i.localStateCommit);
    LiteralRead("btc-system-state:v1", Text(i.upstreamSnapshotId) + r1);
    TextRead(i.upstreamSnapshotId, r1);
    LastTextRead(i.localStateCommit);
  }

  /** Ids are written in lower-case hexadecimal, high digit first. */
  lemma {:induction false} HexDigits(b: Bytes)
    ensures |Hex(b)| == 2 * |b|
    ensures forall k | 0 <= k < |b| ::
              Hex(b)[2 * k] == "0123456789abcdef"[b[k] / 16] as int
              && Hex(b)[2 * k + 1] == "0123456789abcdef"[b[k] % 16] as int
  {
    if b != [] {
      HexDigits(b[1..]);
      DigitsOfByte(b[0]);
      var t := Hex(b);
      forall k | 0 <= k < |b|
        ensures t[2 * k] == "0123456789abcdef"[b[k] / 16] as int && t[2 * k + 1] == "0123456789abcdef"[b[k] % 16] as int
      {
        if k > 0 {
          assert t[2 * k] == Hex(b[1..])[2 * (k - 1)] && t[2 * k + 1] == Hex(b[1..])[2 * (k - 1) + 1];
        }
      }
    }
  }

  lemma DigitsOfByte(x: Byte)
    ensures HexDigit(x / 16) == "0123456789abcdef"[x / 16] as int
    ensures HexDigit(x % 16) == "0123456789abcdef"[x % 16] as int
  {
    forall n | 0 <= n < 16
      ensures HexDigit(n) == "0123456789abcdef"[n] as int
    {
    }
  }
}
