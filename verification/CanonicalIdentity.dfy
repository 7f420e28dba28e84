/** Canonical identities of the BTC-side state: length-prefixed, option-marked byte streams, hashed and
    printed in hexadecimal, each identity embedding the identifiers of the one before. */
module CanonicalIdentity {
  import opened Wrappers

  type Byte = x: int | 0 <= x < 256
  type Bytes = seq<Byte>

  const TWO32: nat := 0x1_0000_0000
  type U32 = x: int | 0 <= x < 0x1_0000_0000
  type U64 = x: int | 0 <= x < 0x1_0000_0000_0000_0000

  // ---------------------------------------------------------------- fixed-width integers

  function Be32(n: U32): (r: Bytes)
    ensures |r| == 4
  {
    var q1 := n / 256;
    var q2 := q1 / 256;
    [q2 / 256, q2 % 256, q1 % 256, n % 256]
  }

  function Join(high: int, low: int): int {
    256 * high + low
  }

  function FromBe32(b: Bytes): U32
    requires |b| == 4
  {
    Join(Join(Join(b[0], b[1]), b[2]), b[3])
  }

  lemma Be32RoundTrip(n: U32)
    ensures FromBe32(Be32(n)) == n
  {
    var q1 := n / 256;
    var q2 := q1 / 256;
    assert Join(q2 / 256, q2 % 256) == q2;
    assert Join(q2, q1 % 256) == q1;
    assert Join(q1, n % 256) == n;
  }

  lemma FromBe32RoundTrip(b: Bytes)
    requires |b| == 4
    ensures Be32(FromBe32(b)) == b
  {
    var q2 := Join(b[0], b[1]);
    var q1 := Join(q2, b[2]);
    var n := Join(q1, b[3]);
    assert n / 256 == q1 && n % 256 == b[3];
    assert q1 / 256 == q2 && q1 % 256 == b[2];
    assert q2 / 256 == b[0] && q2 % 256 == b[1];
  }

  function Be64(n: U64): (r: Bytes)
    ensures |r| == 8
  {
    Be32(n / 0x1_0000_0000) + Be32(n % 0x1_0000_0000)
  }

  function JoinWords(high: U32, low: U32): U64 {
    high * 0x1_0000_0000 + low
  }

  function FromBe64(b: Bytes): U64
    requires |b| == 8
  {
    JoinWords(FromBe32(b[..4]), FromBe32(b[4..]))
  }

  lemma Be64RoundTrip(n: U64)
    ensures FromBe64(Be64(n)) == n
  {
    var b := Be64(n);
    Be32RoundTrip(n / 0x1_0000_0000);
    Be32RoundTrip(n % 0x1_0000_0000);
    assert b[..4] == Be32(n / 0x1_0000_0000) && b[4..] == Be32(n % 0x1_0000_0000);
  }

  lemma JoinedWords(high: U32, low: U32)
    ensures JoinWords(high, low) / 0x1_0000_0000 == high && JoinWords(high, low) % 0x1_0000_0000 == low
  {
  }

  lemma FromBe64RoundTrip(b: Bytes)
    requires |b| == 8
    ensures Be64(FromBe64(b)) == b
  {
    FromBe32RoundTrip(b[..4]);
    FromBe32RoundTrip(b[4..]);
    JoinedWords(FromBe32(b[..4]), FromBe32(b[4..]));
    assert b == b[..4] + b[4..];
  }

  // ---------------------------------------------------------------- components of a stream

  /** `update_string_component`: the length is truncated to 32 bits, as the cast does. */
  function Text(s: Bytes): Bytes {
    Be32(|s| % TWO32) + s
  }

  /** `update_optional_marker`. */
  function Marker(present: bool): Bytes {
    [if present then 1 else 0]
  }

  predicate Short(s: Bytes) {
    |s| < TWO32
  }

  lemma SplitFixed(p: Bytes, q: Bytes, x: Bytes, y: Bytes)
    requires |p| == |q| && p + x == q + y
    ensures p == q && x == y
  {
    assert p == (p + x)[..|p|] == (q + y)[..|q|] == q;
    assert x == (p + x)[|p|..] == (q + y)[|q|..] == y;
  }

  lemma Be32Injective(m: U32, n: U32)
    requires Be32(m) == Be32(n)
    ensures m == n
  {
    Be32RoundTrip(m);
    Be32RoundTrip(n);
  }

  lemma SplitPrefixed(p: Bytes, s: Bytes, x: Bytes, q: Bytes, t: Bytes, y: Bytes)
    requires |p| == |q| && (p + s) + x == (q + t) + y && (p == q ==> |s| == |t|)
    ensures p == q && s == t && x == y
  {
    assert (p + s) + x == p + (s + x) && (q + t) + y == q + (t + y);
    SplitFixed(p, q, s + x, t + y);
    SplitFixed(s, t, x, y);
  }

  lemma NoTruncation(n: nat)
    requires n < TWO32
    ensures n % TWO32 == n
  {
  }

  lemma LengthPrefix(s: Bytes, t: Bytes)
    requires Short(s) && Short(t) && Be32(|s| % TWO32) == Be32(|t| % TWO32)
    ensures |s| == |t|
  {
    NoTruncation(|s|);
    NoTruncation(|t|);
    Be32Injective(|s|, |t|);
  }

  /** A text component determines itself and what follows it. */
  lemma SplitText(s: Bytes, t: Bytes, x: Bytes, y: Bytes)
    requires Short(s) && Short(t) && Text(s) + x == Text(t) + y
    ensures s == t && x == y
  {
    var p, q := Be32(|s| % TWO32), Be32(|t| % TWO32);
    if p == q {
      LengthPrefix(s, t);
    }
    SplitPrefixed(p, s, x, q, t, y);
  }

  /** The marker byte tells an absent option from a present one. */
  lemma SplitMarker(m: bool, p: Bytes, x: Bytes, n: bool, q: Bytes, y: Bytes)
    requires (Marker(m) + p) + x == (Marker(n) + q) + y
    ensures m == n && p + x == q + y
  {
    assert (Marker(m) + p) + x == Marker(m) + (p + x) && (Marker(n) + q) + y == Marker(n) + (q + y);
    SplitFixed(Marker(m), Marker(n), p + x, q + y);
    assert Marker(m)[0] == Marker(n)[0];
  }

  lemma SplitU32(m: U32, n: U32, x: Bytes, y: Bytes)
    requires Be32(m) + x == Be32(n) + y
    ensures m == n && x == y
  {
    SplitFixed(Be32(m), Be32(n), x, y);
    Be32RoundTrip(m);
    Be32RoundTrip(n);
  }

  lemma SplitU64(m: U64, n: U64, x: Bytes, y: Bytes)
    requires Be64(m) + x == Be64(n) + y
    ensures m == n && x == y
  {
    SplitFixed(Be64(m), Be64(n), x, y);
    Be64RoundTrip(m);
    Be64RoundTrip(n);
  }

  // ---------------------------------------------------------------- identities

  datatype Snapshot = Snapshot(
    sourceChain: Bytes,
    network: Bytes,
    stableHeight: U32,
    stableBlockHash: Bytes,
    stableLag: U32,
    historyApiVersion: Bytes,
    historySemanticsVersion: Bytes,
    formulaVersion: Bytes,
    protocolVersion: Bytes)

  datatype PassCommit = PassCommit(
    blockHeight: U32,
    blockCommit: Bytes,
    protocolVersion: Bytes,
    hashAlgo: Bytes)

  datatype ActiveBalance = ActiveBalance(
    blockHeight: U32,
    totalBalance: U64,
    addressCount: U32)

  datatype LocalState = LocalState(
    upstreamSnapshotId: Bytes,
    syncedHeight: U32,
    passCommit: Option<PassCommit>,
    activeBalance: Option<ActiveBalance>,
    protocolVersion: Bytes)

  datatype SystemState = SystemState(
    upstreamSnapshotId: Bytes,
    localStateCommit: Bytes)

  function Ascii(s: string): Bytes {
    seq(|s|, i requires 0 <= i < |s| => if s[i] < '\U{80}' then s[i] as int else 0)
  }

  const SNAPSHOT_VERSION: Bytes := Ascii("btc-consensus-snapshot:v1")
  const LOCAL_VERSION: Bytes := Ascii("usdb-local-state:v1")
  const SYSTEM_VERSION: Bytes := Ascii("btc-system-state:v1")

  predicate ShortSnapshot(i: Snapshot) {
    && Short(i.sourceChain) && Short(i.network) && Short(i.stableBlockHash) && Short(i.historyApiVersion)
    && Short(i.historySemanticsVersion) && Short(i.formulaVersion) && Short(i.protocolVersion)
  }

  predicate ShortCommit(c: PassCommit) {
    Short(c.blockCommit) && Short(c.protocolVersion) && Short(c.hashAlgo)
  }

  predicate ShortLocal(i: LocalState) {
    && Short(i.upstreamSnapshotId) && Short(i.protocolVersion)
    && (i.passCommit.Some? ==> ShortCommit(i.passCommit.value))
  }

  predicate ShortSystem(i: SystemState) {
    Short(i.upstreamSnapshotId) && Short(i.localStateCommit)
  }

  function SnapshotTail(i: Snapshot): Bytes {
    Text(i.historyApiVersion) + (Text(i.historySemanticsVersion) + (Text(i.formulaVersion) + Text(i.protocolVersion)))
  }

  function SnapshotBody(i: Snapshot): Bytes {
    Text(i.sourceChain) + (Text(i.network) + (Be32(i.stableHeight) + (Text(i.stableBlockHash)
    + (Be32(i.stableLag) + SnapshotTail(i)))))
  }

  /** Byte stream hashed into a consensus snapshot id. */
  function SnapshotPreimage(i: Snapshot): Bytes {
    Text(SNAPSHOT_VERSION) + SnapshotBody(i)
  }

  function CommitBytes(c: PassCommit): Bytes {
    Be32(c.blockHeight) + (Text(c.blockCommit) + (Text(c.protocolVersion) + Text(c.hashAlgo)))
  }

  function BalanceBytes(b: ActiveBalance): Bytes {
    Be32(b.blockHeight) + (Be64(b.totalBalance) + Be32(b.addressCount))
  }

  function CommitPart(c: Option<PassCommit>): Bytes {
    Marker(c.Some?) + (if c.Some? then CommitBytes(c.value) else [])
  }

  function BalancePart(b: Option<ActiveBalance>): Bytes {
    Marker(b.Some?) + (if b.Some? then BalanceBytes(b.value) else [])
  }

  function LocalBody(i: LocalState): Bytes {
    Text(i.upstreamSnapshotId) + (Be32(i.syncedHeight)
    + (CommitPart(i.passCommit) + (BalancePart(i.activeBalance) + Text(i.protocolVersion))))
  }

  /** Byte stream hashed into a local-state commit. */
  function LocalPreimage(i: LocalState): Bytes {
    Text(LOCAL_VERSION) + LocalBody(i)
  }

  /** Byte stream hashed into a system-state id. */
  function SystemPreimage(i: SystemState): Bytes {
    Text(SYSTEM_VERSION) + (Text(i.upstreamSnapshotId) + Text(i.localStateCommit))
  }

  // ---------------------------------------------------------------- each stream determines its identity

  lemma NoMore(x: Bytes)
    ensures x + [] == x
  {
  }

  lemma SplitLastText(s: Bytes, t: Bytes)
    requires Short(s) && Short(t) && Text(s) == Text(t)
    ensures s == t
  {
    NoMore(Text(s));
    NoMore(Text(t));
    SplitText(s, t, [], []);
  }

  lemma SnapshotTailInjective(i: Snapshot, j: Snapshot)
    requires ShortSnapshot(i) && ShortSnapshot(j) && SnapshotTail(i) == SnapshotTail(j)
    ensures i.historyApiVersion == j.historyApiVersion && i.historySemanticsVersion == j.historySemanticsVersion
    ensures i.formulaVersion == j.formulaVersion && i.protocolVersion == j.protocolVersion
  {
    var i2, j2 := Text(i.formulaVersion) + Text(i.protocolVersion), Text(j.formulaVersion) + Text(j.protocolVersion);
    SplitText(i.historyApiVersion, j.historyApiVersion, Text(i.historySemanticsVersion) + i2,
              Text(j.historySemanticsVersion) + j2);
    SplitText(i.historySemanticsVersion, j.historySemanticsVersion, i2, j2);
    SplitText(i.formulaVersion, j.formulaVersion, Text(i.protocolVersion), Text(j.protocolVersion));
    SplitLastText(i.protocolVersion, j.protocolVersion);
  }

  lemma SnapshotPreimageInjective(i: Snapshot, j: Snapshot)
    requires ShortSnapshot(i) && ShortSnapshot(j) && SnapshotPreimage(i) == SnapshotPreimage(j)
    ensures i == j
  {
    SplitText(SNAPSHOT_VERSION, SNAPSHOT_VERSION, SnapshotBody(i), SnapshotBody(j));
    var i4, j4 := Be32(i.stableLag) + SnapshotTail(i), Be32(j.stableLag) + SnapshotTail(j);
    var i3, j3 := Text(i.stableBlockHash) + i4, Text(j.stableBlockHash) + j4;
    var i2, j2 := Be32(i.stableHeight) + i3, Be32(j.stableHeight) + j3;
    SplitText(i.sourceChain, j.sourceChain, Text(i.network) + i2, Text(j.network) + j2);
    SplitText(i.network, j.network, i2, j2);
    SplitU32(i.stableHeight, j.stableHeight, i3, j3);
    SplitText(i.stableBlockHash, j.stableBlockHash, i4, j4);
    SplitU32(i.stableLag, j.stableLag, SnapshotTail(i), SnapshotTail(j));
    SnapshotTailInjective(i, j);
  }

  lemma SplitCommit(c: PassCommit, d: PassCommit, x: Bytes, y: Bytes)
    requires ShortCommit(c) && ShortCommit(d) && CommitBytes(c) + x == CommitBytes(d) + y
    ensures c == d && x == y
  {
    var c2, d2 := Text(c.hashAlgo) + x, Text(d.hashAlgo) + y;
    var c1, d1 := Text(c.protocolVersion) + c2, Text(d.protocolVersion) + d2;
    assert CommitBytes(c) + x == Be32(c.blockHeight) + (Text(c.blockCommit) + c1);
    assert CommitBytes(d) + y == Be32(d.blockHeight) + (Text(d.blockCommit) + d1);
    SplitU32(c.blockHeight, d.blockHeight, Text(c.blockCommit) + c1, Text(d.blockCommit) + d1);
    SplitText(c.blockCommit, d.blockCommit, c1, d1);
    SplitText(c.protocolVersion, d.protocolVersion, c2, d2);
    SplitText(c.hashAlgo, d.hashAlgo, x, y);
  }

  lemma SplitBalance(b: ActiveBalance, c: ActiveBalance, x: Bytes, y: Bytes)
    requires BalanceBytes(b) + x == BalanceBytes(c) + y
    ensures b == c && x == y
  {
    var b1, c1 := Be32(b.addressCount) + x, Be32(c.addressCount) + y;
    assert BalanceBytes(b) + x == Be32(b.blockHeight) + (Be64(b.totalBalance) + b1);
    assert BalanceBytes(c) + y == Be32(c.blockHeight) + (Be64(c.totalBalance) + c1);
    SplitU32(b.blockHeight, c.blockHeight, Be64(b.totalBalance) + b1, Be64(c.totalBalance) + c1);
    SplitU64(b.totalBalance, c.totalBalance, b1, c1);
    SplitU32(b.addressCount, c.addressCount, x, y);
  }

  lemma SplitCommitPart(c: Option<PassCommit>, d: Option<PassCommit>, x: Bytes, y: Bytes)
    requires c.Some? ==> ShortCommit(c.value)
    requires d.Some? ==> ShortCommit(d.value)
    requires CommitPart(c) + x == CommitPart(d) + y
    ensures c == d && x == y
  {
    var p, q := if c.Some? then CommitBytes(c.value) else [], if d.Some? then CommitBytes(d.value) else [];
    SplitMarker(c.Some?, p, x, d.Some?, q, y);
    if c.Some? {
      SplitCommit(c.value, d.value, x, y);
    } else {
      assert [] + x == x && [] + y == y;
    }
  }

  lemma SplitBalancePart(b: Option<ActiveBalance>, c: Option<ActiveBalance>, x: Bytes, y: Bytes)
    requires BalancePart(b) + x == BalancePart(c) + y
    ensures b == c && x == y
  {
    var p, q := if b.Some? then BalanceBytes(b.value) else [], if c.Some? then BalanceBytes(c.value) else [];
    SplitMarker(b.Some?, p, x, c.Some?, q, y);
    if b.Some? {
      SplitBalance(b.value, c.value, x, y);
    } else {
      assert [] + x == x && [] + y == y;
    }
  }

  lemma LocalPreimageInjective(i: LocalState, j: LocalState)
    requires ShortLocal(i) && ShortLocal(j) && LocalPreimage(i) == LocalPreimage(j)
    ensures i == j
  {
    SplitText(LOCAL_VERSION, LOCAL_VERSION, LocalBody(i), LocalBody(j));
    var i3, j3 := Text(i.protocolVersion), Text(j.protocolVersion);
    var i2, j2 := BalancePart(i.activeBalance) + i3, BalancePart(j.activeBalance) + j3;
    var i1, j1 := CommitPart(i.passCommit) + i2, CommitPart(j.passCommit) + j2;
    SplitText(i.upstreamSnapshotId, j.upstreamSnapshotId, Be32(i.syncedHeight) + i1, Be32(j.syncedHeight) + j1);
    SplitU32(i.syncedHeight, j.syncedHeight, i1, j1);
    SplitCommitPart(i.passCommit, j.passCommit, i2, j2);
    SplitBalancePart(i.activeBalance, j.activeBalance, i3, j3);
    SplitLastText(i.protocolVersion, j.protocolVersion);
  }

  lemma SystemPreimageInjective(i: SystemState, j: SystemState)
    requires ShortSystem(i) && ShortSystem(j) && SystemPreimage(i) == SystemPreimage(j)
    ensures i == j
  {
    SplitText(SYSTEM_VERSION, SYSTEM_VERSION, Text(i.upstreamSnapshotId) + Text(i.localStateCommit),
              Text(j.upstreamSnapshotId) + Text(j.localStateCommit));
    SplitText(i.upstreamSnapshotId, j.upstreamSnapshotId, Text(i.localStateCommit), Text(j.localStateCommit));
    SplitLastText(i.localStateCommit, j.localStateCommit);
  }

  lemma VersionsDiffer()
    ensures SNAPSHOT_VERSION != LOCAL_VERSION && LOCAL_VERSION != SYSTEM_VERSION && SNAPSHOT_VERSION != SYSTEM_VERSION
    ensures Short(SNAPSHOT_VERSION) && Short(LOCAL_VERSION) && Short(SYSTEM_VERSION)
  {
    assert |SNAPSHOT_VERSION| == 25 && |LOCAL_VERSION| == 19 && |SYSTEM_VERSION| == 19;
    assert LOCAL_VERSION[0] == 'u' as int && SYSTEM_VERSION[0] == 'b' as int;
  }

  /** Domain separation: no stream of one kind is a stream of another kind, whatever the lengths. */
  lemma KindsNeverCollide(i: Snapshot, j: LocalState, k: SystemState)
    ensures SnapshotPreimage(i) != LocalPreimage(j)
    ensures LocalPreimage(j) != SystemPreimage(k)
    ensures SnapshotPreimage(i) != SystemPreimage(k)
  {
    VersionsDiffer();
    var rest := Text(k.upstreamSnapshotId) + Text(k.localStateCommit);
    if SnapshotPreimage(i) == LocalPreimage(j) {
      SplitText(SNAPSHOT_VERSION, LOCAL_VERSION, SnapshotBody(i), LocalBody(j));
    }
    if LocalPreimage(j) == SystemPreimage(k) {
      SplitText(LOCAL_VERSION, SYSTEM_VERSION, LocalBody(j), rest);
    }
    if SnapshotPreimage(i) == SystemPreimage(k) {
      SplitText(SNAPSHOT_VERSION, SYSTEM_VERSION, SnapshotBody(i), rest);
    }
  }

  /** The length bound is needed: the length prefix wraps at 2^32. For every length from there on and
      every local commit there is a system state whose stream is also that of another one. */
  lemma LongComponentsCollide(n: nat, commit: Bytes) returns (i: SystemState, j: SystemState)
    requires n >= TWO32
    ensures |i.upstreamSnapshotId| == n && i.localStateCommit == commit
    ensures i != j && SystemPreimage(i) == SystemPreimage(j)
  {
    var head: Bytes := seq(n - TWO32, _ => 0);
    var pad: Bytes := seq(TWO32 - 4, _ => 0);
    i := SystemState(head + Be32(|commit| % TWO32) + pad, commit);
    j := SystemState(head, pad + Text(commit));
    SameLengthPrefix(n);
    SameLengthPrefix(TWO32 + |commit|);
    assert |j.localStateCommit| == TWO32 + |commit|;
    Regrouped(head, Be32(|commit| % TWO32), pad, commit);
  }

  lemma SameLengthPrefix(n: nat)
    requires n >= TWO32
    ensures n % TWO32 == (n - TWO32) % TWO32
  {
  }

  lemma Regrouped(head: Bytes, length: Bytes, pad: Bytes, commit: Bytes)
    requires length == Be32(|commit| % TWO32)
    requires Be32(|head + length + pad| % TWO32) == Be32(|head| % TWO32)
    requires Be32(|pad + Text(commit)| % TWO32) == length
    ensures Text(head + length + pad) + Text(commit) == Text(head) + Text(pad + Text(commit))
  {
  }

  // ---------------------------------------------------------------- ids

  /** The hash is abstract; what it is relied on for is never to exhibit a collision. */
  type Hash = Bytes -> Bytes

  ghost predicate Collision(h: Hash, x: Bytes, y: Bytes) {
    x != y && h(x) == h(y)
  }

  ghost predicate Sized(h: Hash) {
    forall x :: |h(x)| == 32
  }

  function HexDigit(n: int): Byte
    requires 0 <= n < 16
  {
    if n < 10 then '0' as int + n else 'a' as int + (n - 10)
  }

  function Hex(b: Bytes): (r: Bytes)
    ensures |r| == 2 * |b|
  {
    if b == [] then [] else [HexDigit(b[0] / 16), HexDigit(b[0] % 16)] + Hex(b[1..])
  }

  lemma {:induction false} HexInjective(a: Bytes, b: Bytes)
    requires Hex(a) == Hex(b)
    ensures a == b
  {
    if a != [] {
      assert |Hex(a)| == 2 * |a| && |Hex(b)| == 2 * |b|;
      assert Hex(a)[0] == Hex(b)[0] && Hex(a)[1] == Hex(b)[1];
      assert Hex(a[1..]) == Hex(a)[2..] == Hex(b)[2..] == Hex(b[1..]);
      HexInjective(a[1..], b[1..]);
      assert a == [a[0]] + a[1..] && b == [b[0]] + b[1..];
    }
  }

  function SnapshotId(h: Hash, i: Snapshot): Bytes {
    Hex(h(SnapshotPreimage(i)))
  }

  function LocalCommit(h: Hash, i: LocalState): Bytes {
    Hex(h(LocalPreimage(i)))
  }

  function SystemId(h: Hash, i: SystemState): Bytes {
    Hex(h(SystemPreimage(i)))
  }

  /** Equal ids: equal identities, or a collision of the hash on their streams. */
  lemma SnapshotIdBinds(h: Hash, i: Snapshot, j: Snapshot)
    requires ShortSnapshot(i) && ShortSnapshot(j)
    ensures SnapshotId(h, i) == SnapshotId(h, j) <==> i == j || Collision(h, SnapshotPreimage(i), SnapshotPreimage(j))
  {
    if SnapshotId(h, i) == SnapshotId(h, j) {
      HexInjective(h(SnapshotPreimage(i)), h(SnapshotPreimage(j)));
      if SnapshotPreimage(i) == SnapshotPreimage(j) {
        SnapshotPreimageInjective(i, j);
      }
    }
  }

  lemma LocalCommitBinds(h: Hash, i: LocalState, j: LocalState)
    requires ShortLocal(i) && ShortLocal(j)
    ensures LocalCommit(h, i) == LocalCommit(h, j) <==> i == j || Collision(h, LocalPreimage(i), LocalPreimage(j))
  {
    if LocalCommit(h, i) == LocalCommit(h, j) {
      HexInjective(h(LocalPreimage(i)), h(LocalPreimage(j)));
      if LocalPreimage(i) == LocalPreimage(j) {
        LocalPreimageInjective(i, j);
      }
    }
  }

  lemma SystemIdBinds(h: Hash, i: SystemState, j: SystemState)
    requires ShortSystem(i) && ShortSystem(j)
    ensures SystemId(h, i) == SystemId(h, j) <==> i == j || Collision(h, SystemPreimage(i), SystemPreimage(j))
  {
    if SystemId(h, i) == SystemId(h, j) {
      HexInjective(h(SystemPreimage(i)), h(SystemPreimage(j)));
      if SystemPreimage(i) == SystemPreimage(j) {
        SystemPreimageInjective(i, j);
      }
    }
  }

  /** The system state a node publishes for its local state on top of an upstream snapshot. */
  function Published(h: Hash, snapshot: Snapshot, local: LocalState): SystemState {
    SystemState(SnapshotId(h, snapshot), LocalCommit(h, local))
  }

  /** Transitive binding through three hash layers: equal system-state ids mean equal upstream
      snapshots and equal local states, field by field, options included, unless one of the three
      pairs of streams is a collision of the hash. */
  lemma SystemIdBindsEverything(h: Hash, c1: Snapshot, l1: LocalState, c2: Snapshot, l2: LocalState)
    requires Sized(h)
    requires ShortSnapshot(c1) && ShortSnapshot(c2) && ShortLocal(l1) && ShortLocal(l2)
    requires SystemId(h, Published(h, c1, l1)) == SystemId(h, Published(h, c2, l2))
    ensures (c1 == c2 && l1 == l2)
         || Collision(h, SystemPreimage(Published(h, c1, l1)), SystemPreimage(Published(h, c2, l2)))
         || Collision(h, LocalPreimage(l1), LocalPreimage(l2))
         || Collision(h, SnapshotPreimage(c1), SnapshotPreimage(c2))
  {
    SystemIdBinds(h, Published(h, c1, l1), Published(h, c2, l2));
    SnapshotIdBinds(h, c1, c2);
    LocalCommitBinds(h, l1, l2);
  }

  /** The consensus snapshot is bound through the local state alone, which embeds its id. */
  lemma LocalCommitBindsSnapshot(h: Hash, c1: Snapshot, l1: LocalState, c2: Snapshot, l2: LocalState)
    requires ShortSnapshot(c1) && ShortSnapshot(c2) && ShortLocal(l1) && ShortLocal(l2)
    requires l1.upstreamSnapshotId == SnapshotId(h, c1) && l2.upstreamSnapshotId == SnapshotId(h, c2)
    requires LocalCommit(h, l1) == LocalCommit(h, l2)
    ensures c1 == c2 || Collision(h, LocalPreimage(l1), LocalPreimage(l2))
         || Collision(h, SnapshotPreimage(c1), SnapshotPreimage(c2))
  {
    LocalCommitBinds(h, l1, l2);
    SnapshotIdBinds(h, c1, c2);
  }

  /** Ids of different kinds agree only in a collision. */
  lemma IdKindsNeverCollide(h: Hash, i: Snapshot, j: LocalState, k: SystemState)
    ensures SnapshotId(h, i) == LocalCommit(h, j) ==> Collision(h, SnapshotPreimage(i), LocalPreimage(j))
    ensures LocalCommit(h, j) == SystemId(h, k) ==> Collision(h, LocalPreimage(j), SystemPreimage(k))
    ensures SnapshotId(h, i) == SystemId(h, k) ==> Collision(h, SnapshotPreimage(i), SystemPreimage(k))
  {
    KindsNeverCollide(i, j, k);
    if SnapshotId(h, i) == LocalCommit(h, j) {
      HexInjective(h(SnapshotPreimage(i)), h(LocalPreimage(j)));
    }
    if LocalCommit(h, j) == SystemId(h, k) {
      HexInjective(h(LocalPreimage(j)), h(SystemPreimage(k)));
    }
    if SnapshotId(h, i) == SystemId(h, k) {
      HexInjective(h(SnapshotPreimage(i)), h(SystemPreimage(k)));
    }
  }

  // ---------------------------------------------------------------- the hasher, step by step

  class Hasher {
    var fed: Bytes

    constructor ()
      ensures fed == []
    {
      fed := [];
    }

    method Update(data: Bytes)
      modifies this
      ensures fed == old(fed) + data
    {
      fed := fed + data;
    }

    method UpdateText(value: Bytes)
      modifies this
      ensures fed == old(fed) + Text(value)
    {
      Update(Be32(|value| % TWO32));
      Update(value);
    }

    method UpdateMarker(present: bool)
      modifies this
      ensures fed == old(fed) + Marker(present)
    {
      Update([if present then 1 else 0]);
    }

    /** What is fed and what is still to come make up the whole stream. */
    ghost predicate Leads(whole: Bytes, rest: Bytes)
      reads this
    {
      fed + rest == whole
    }
  }

  method EncodeHex(bytes: Bytes) returns (output: Bytes)
    ensures output == Hex(bytes) && |output| == 2 * |bytes|
  {
    output := [];
    var i := 0;
    while i < |bytes|
      invariant 0 <= i <= |bytes|
      invariant output + Hex(bytes[i..]) == Hex(bytes)
    {
      assert bytes[i..][1..] == bytes[i + 1..];
      output := output + [HexDigit(bytes[i] / 16), HexDigit(bytes[i] % 16)];
      i := i + 1;
    }
    assert bytes[i..] == [];
  }

  lemma Assoc(a: Bytes, b: Bytes, c: Bytes)
    ensures (a + b) + c == a + (b + c)
  {
  }

  method FeedText(hasher: Hasher, value: Bytes, ghost whole: Bytes, ghost rest: Bytes)
    requires hasher.Leads(whole, Text(value) + rest)
    modifies hasher
    ensures hasher.Leads(whole, rest)
  {
    Assoc(hasher.fed, Text(value), rest);
    hasher.UpdateText(value);
  }

  method Feed(hasher: Hasher, data: Bytes, ghost whole: Bytes, ghost rest: Bytes)
    requires hasher.Leads(whole, data + rest)
    modifies hasher
    ensures hasher.Leads(whole, rest)
  {
    Assoc(hasher.fed, data, rest);
    hasher.Update(data);
  }

  method BuildConsensusSnapshotId(h: Hash, i: Snapshot) returns (id: Bytes)
    ensures id == SnapshotId(h, i)
  {
    ghost var p := SnapshotPreimage(i);
    ghost var r8 := Text(i.protocolVersion);
    ghost var r7 := Text(i.formulaVersion) + r8;
    ghost var r6 := Text(i.historySemanticsVersion) + r7;
    ghost var r5 := SnapshotTail(i);
    ghost var r4 := Be32(i.stableLag) + r5;
    ghost var r3 := Text(i.stableBlockHash) + r4;
    ghost var r2 := Be32(i.stableHeight) + r3;
    ghost var r1 := Text(i.network) + r2;
    var hasher := new Hasher();
    assert hasher.Leads(p, p);
    FeedText(hasher, SNAPSHOT_VERSION, p, SnapshotBody(i));
    FeedText(hasher, i.sourceChain, p, r1);
    FeedText(hasher, i.network, p, r2);
    Feed(hasher, Be32(i.stableHeight), p, r3);
    FeedText(hasher, i.stableBlockHash, p, r4);
    Feed(hasher, Be32(i.stableLag), p, r5);
    FeedText(hasher, i.historyApiVersion, p, r6);
    FeedText(hasher, i.historySemanticsVersion, p, r7);
    FeedText(hasher, i.formulaVersion, p, r8);
    NoMore(r8);
    FeedText(hasher, i.protocolVersion, p, []);
    NoMore(hasher.fed);
    id := EncodeHex(h(hasher.fed));
  }

  method FeedCommit(hasher: Hasher, c: Option<PassCommit>, ghost whole: Bytes, ghost rest: Bytes)
    requires hasher.Leads(whole, CommitPart(c) + rest)
    modifies hasher
    ensures hasher.Leads(whole, rest)
  {
    ghost var body := if c.Some? then CommitBytes(c.value) else [];
    Assoc(hasher.fed, Marker(c.Some?), body + rest);
    Assoc(Marker(c.Some?), body, rest);
    hasher.UpdateMarker(c.Some?);
    if c.Some? {
      var k := c.value;
      ghost var r2 := Text(k.hashAlgo) + rest;
      ghost var r1 := Text(k.protocolVersion) + r2;
      ghost var r0 := Text(k.blockCommit) + r1;
      Assoc(Be32(k.blockHeight), Text(k.blockCommit) + (Text(k.protocolVersion) + Text(k.hashAlgo)), rest);
      Assoc(Text(k.blockCommit), Text(k.protocolVersion) + Text(k.hashAlgo), rest);
      Assoc(Text(k.protocolVersion), Text(k.hashAlgo), rest);
      assert body + rest == Be32(k.blockHeight) + r0;
      Feed(hasher, Be32(k.blockHeight), whole, r0);
      FeedText(hasher, k.blockCommit, whole, r1);
      FeedText(hasher, k.protocolVersion, whole, r2);
      FeedText(hasher, k.hashAlgo, whole, rest);
    } else {
      assert [] + rest == rest;
    }
  }

  method FeedBalance(hasher: Hasher, b: Option<ActiveBalance>, ghost whole: Bytes, ghost rest: Bytes)
    requires hasher.Leads(whole, BalancePart(b) + rest)
    modifies hasher
    ensures hasher.Leads(whole, rest)
  {
    ghost var body := if b.Some? then BalanceBytes(b.value) else [];
    Assoc(hasher.fed, Marker(b.Some?), body + rest);
    Assoc(Marker(b.Some?), body, rest);
    hasher.UpdateMarker(b.Some?);
    if b.Some? {
      var k := b.value;
      ghost var r1 := Be32(k.addressCount) + rest;
      Assoc(Be32(k.blockHeight), Be64(k.totalBalance) + Be32(k.addressCount), rest);
      Assoc(Be64(k.totalBalance), Be32(k.addressCount), rest);
      assert body + rest == Be32(k.blockHeight) + (Be64(k.totalBalance) + r1);
      Feed(hasher, Be32(k.blockHeight), whole, Be64(k.totalBalance) + r1);
      Feed(hasher, Be64(k.totalBalance), whole, r1);
      Feed(hasher, Be32(k.addressCount), whole, rest);
    } else {
      assert [] + rest == rest;
    }
  }

  method BuildLocalStateCommit(h: Hash, i: LocalState) returns (id: Bytes)
    ensures id == LocalCommit(h, i)
  {
    ghost var p := LocalPreimage(i);
    ghost var r3 := Text(i.protocolVersion);
    ghost var r2 := BalancePart(i.activeBalance) + r3;
    ghost var r1 := CommitPart(i.passCommit) + r2;
    var hasher := new Hasher();
    assert hasher.Leads(p, p);
    FeedText(hasher, LOCAL_VERSION, p, LocalBody(i));
    FeedText(hasher, i.upstreamSnapshotId, p, Be32(i.syncedHeight) + r1);
    Feed(hasher, Be32(i.syncedHeight), p, r1);
    FeedCommit(hasher, i.passCommit, p, r2);
    FeedBalance(hasher, i.activeBalance, p, r3);
    hasher.UpdateText(i.protocolVersion);
    id := EncodeHex(h(hasher.fed));
  }

  method BuildSystemStateId(h: Hash, i: SystemState) returns (id: Bytes)
    ensures id == SystemId(h, i)
  {
    var hasher := new Hasher();
    ghost var p := SystemPreimage(i);
    assert hasher.Leads(p, p);
    FeedText(hasher, SYSTEM_VERSION, p, Text(i.upstreamSnapshotId) + Text(i.localStateCommit));
    FeedText(hasher, i.upstreamSnapshotId, p, Text(i.localStateCommit));
    hasher.UpdateText(i.localStateCommit);
    id := EncodeHex(h(hasher.fed));
  }
}
