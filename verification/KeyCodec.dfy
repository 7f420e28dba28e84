/** Fixed-width storage keys and values: outpoints (36 bytes) and UTXO values (40 bytes). */
module KeyCodec {
  import opened Wrappers
  import opened CanonicalIdentity
  import IdentityReader

  /** A transaction id is 32 bytes in storage order. */
  type Hash32 = b: Bytes | |b| == 32 witness seq(32, _ => 0)

  datatype OutPoint = OutPoint(txid: Hash32, vout: U32)
  datatype UtxoValue = UtxoValue(scriptHash: Hash32, value: U64)

  function EncodeOutPoint(o: OutPoint): (r: Bytes)
    ensures |r| == 36
  {
    o.txid + Be32(o.vout)
  }

  function DecodeOutPoint(data: Bytes): Result<OutPoint, string> {
    if |data| != 36 then Failure("Invalid data length")
    else Success(OutPoint(data[0..32], FromBe32(data[32..36])))
  }

  function EncodeUtxo(u: UtxoValue): (r: Bytes)
    ensures |r| == 40
  {
    u.scriptHash + Be64(u.value)
  }

  function DecodeUtxo(data: Bytes): Result<UtxoValue, string> {
    if |data| != 40 then Failure("Invalid UTXOValue data length")
    else Success(UtxoValue(data[0..32], FromBe64(data[32..40])))
  }

  /** Copies a slice into a byte array at an offset. */
  method CopyInto(target: array<Byte>, at: nat, source: Bytes)
    requires at + |source| <= target.Length
    modifies target
    ensures target[..] == old(target[..at]) + source + old(target[at + |source|..])
  {
    var i := 0;
    while i < |source|
      invariant 0 <= i <= |source|
      invariant forall k | 0 <= k < target.Length ::
                  target[k] == if at <= k < at + i then source[k - at] else old(target[k])
    {
      target[at + i] := source[i];
      i := i + 1;
    }
  }

  method FillOutPoint(o: OutPoint) returns (key: array<Byte>)
    ensures key[..] == EncodeOutPoint(o)
  {
    key := new Byte[36](_ => 0);
    CopyInto(key, 0, o.txid);
    CopyInto(key, 32, Be32(o.vout));
  }

  method FillUtxo(u: UtxoValue) returns (data: array<Byte>)
    ensures data[..] == EncodeUtxo(u)
  {
    data := new Byte[40](_ => 0);
    CopyInto(data, 0, u.scriptHash);
    CopyInto(data, 32, Be64(u.value));
  }

  /** Decoding inverts encoding, and encoding inverts decoding on exactly the 36-byte strings. */
  lemma OutPointRoundTrip(o: OutPoint, data: Bytes)
    ensures DecodeOutPoint(EncodeOutPoint(o)) == Success(o)
    ensures DecodeOutPoint(data).Success? <==> |data| == 36
    ensures |data| == 36 ==> EncodeOutPoint(DecodeOutPoint(data).value) == data
  {
    var e := EncodeOutPoint(o);
    assert e[0..32] == o.txid && e[32..36] == Be32(o.vout);
    Be32RoundTrip(o.vout);
    if |data| == 36 {
      FromBe32RoundTrip(data[32..36]);
      assert data == data[0..32] + data[32..36];
    }
  }

  lemma UtxoRoundTrip(u: UtxoValue, data: Bytes)
    ensures DecodeUtxo(EncodeUtxo(u)) == Success(u)
    ensures DecodeUtxo(data).Success? <==> |data| == 40
    ensures |data| == 40 ==> EncodeUtxo(DecodeUtxo(data).value) == data
  {
    var e := EncodeUtxo(u);
    assert e[0..32] == u.scriptHash && e[32..40] == Be64(u.value);
    Be64RoundTrip(u.value);
    if |data| == 40 {
      FromBe64RoundTrip(data[32..40]);
      assert data == data[0..32] + data[32..40];
    }
  }

  /** Where each field stands: 32 bytes as they are, then the number high byte first. */
  lemma KeyLayout(o: OutPoint, u: UtxoValue)
    ensures EncodeOutPoint(o)[..32] == o.txid && IdentityReader.Number(EncodeOutPoint(o)[32..]) == o.vout
    ensures EncodeUtxo(u)[..32] == u.scriptHash && IdentityReader.Number(EncodeUtxo(u)[32..]) == u.value
  {
    assert EncodeOutPoint(o)[32..] == Be32(o.vout) == Be32(o.vout) + [];
    IdentityReader.U32Read(o.vout, []);
    assert (Be32(o.vout) + [])[..4] == Be32(o.vout);
    assert EncodeUtxo(u)[32..] == Be64(u.value) == Be64(u.value) + [];
    IdentityReader.U64Read(u.value, []);
    assert (Be64(u.value) + [])[..8] == Be64(u.value);
  }

  // ---------------------------------------------------------------- order

  /** Lexicographic order of byte strings, the order of keys in storage. */
  predicate LexLess(a: Bytes, b: Bytes) {
    b != [] && (a == [] || a[0] < b[0] || (a[0] == b[0] && LexLess(a[1..], b[1..])))
  }

  lemma {:induction false} LexLessConcat(a: Bytes, b: Bytes, x: Bytes, y: Bytes)
    requires |a| == |b|
    ensures LexLess(a + x, b + y) <==> LexLess(a, b) || (a == b && LexLess(x, y))
  {
    if a == [] {
      assert a + x == x && b + y == y;
    } else {
      assert (a + x)[1..] == a[1..] + x && (b + y)[1..] == b[1..] + y;
      LexLessConcat(a[1..], b[1..], x, y);
      assert a == [a[0]] + a[1..] && b == [b[0]] + b[1..];
    }
  }

  lemma {:induction false} LexLessOfFour(a: Bytes, b: Bytes)
    requires |a| == 4 && |b| == 4
    ensures LexLess(a, b) <==> FromBe32(a) < FromBe32(b)
  {
    OneByte(a[3..], b[3..]);
    assert a[2..][1..] == a[3..] && b[2..][1..] == b[3..];
    assert a[1..][1..] == a[2..] && b[1..][1..] == b[2..];
    assert LexLess(a[2..], b[2..]) <==> Join(a[2], a[3]) < Join(b[2], b[3]);
    assert LexLess(a[1..], b[1..]) <==> Join(Join(a[1], a[2]), a[3]) < Join(Join(b[1], b[2]), b[3]);
  }

  lemma OneByte(a: Bytes, b: Bytes)
    requires |a| == 1 && |b| == 1
    ensures LexLess(a, b) <==> a[0] < b[0]
  {
    assert a[1..] == [] && b[1..] == [];
  }

  /** Keys sort by transaction id bytes, then by output index. */
  lemma KeyOrder(o: OutPoint, p: OutPoint)
    ensures LexLess(EncodeOutPoint(o), EncodeOutPoint(p)) <==>
              LexLess(o.txid, p.txid) || (o.txid == p.txid && o.vout < p.vout)
  {
    LexLessConcat(o.txid, p.txid, Be32(o.vout), Be32(p.vout));
    LexLessOfFour(Be32(o.vout), Be32(p.vout));
    Be32RoundTrip(o.vout);
    Be32RoundTrip(p.vout);
  }
}
