/** Text forms of a PSBT: hexadecimal or base64 (section 4 of RFC 4648), told apart by looking at
    the text. Characters are the UTF-16 units below U+D800 and above U+DFFF. */
module PsbtText {
  import opened Wrappers
  import opened Strings
  import opened CanonicalIdentity

  datatype Format = HexFormat | Base64Format

  datatype Payload = Payload(bytes: Bytes, format: Format)

  // ---------------------------------------------------------------- white space

  predicate IsBlank(c: char) {
    || '\t' <= c <= '\r' || c == ' ' || c == '\U{A0}' || c == '\U{1680}'
    || '\U{2000}' <= c <= '\U{200A}' || c == '\U{2028}' || c == '\U{2029}' || c == '\U{202F}'
    || c == '\U{205F}' || c == '\U{3000}' || c == '\U{FEFF}'
  }

  predicate Solid(s: string) {
    forall i | 0 <= i < |s| :: !IsBlank(s[i])
  }

  /** Every run of white space removed. */
  function Compact(s: string): string {
    if s == "" then "" else if IsBlank(s[0]) then Compact(s[1..]) else [s[0]] + Compact(s[1..])
  }

  lemma {:induction false} SolidIsCompact(s: string)
    requires Solid(s)
    ensures Compact(s) == s
  {
    if s != "" {
      SolidIsCompact(s[1..]);
    }
  }

  lemma {:induction false} CompactIsSolid(s: string)
    ensures Solid(Compact(s))
  {
    if s != "" {
      CompactIsSolid(s[1..]);
    }
  }

  lemma CompactHead(c: char, s: string)
    ensures Compact([c] + s) == (if IsBlank(c) then "" else [c]) + Compact(s)
  {
    assert ([c] + s)[1..] == s;
  }

  lemma {:induction false} CompactConcat(s: string, t: string)
    ensures Compact(s + t) == Compact(s) + Compact(t)
  {
    if s == "" {
      assert s + t == t;
    } else {
      CompactConcat(s[1..], t);
      assert s + t == [s[0]] + (s[1..] + t) && s == [s[0]] + s[1..];
      CompactHead(s[0], s[1..] + t);
      CompactHead(s[0], s[1..]);
    }
  }

  lemma {:induction false} CompactIgnoresStart(s: string)
    ensures Compact(TrimStart(s, IsBlank)) == Compact(s)
  {
    if s != "" && IsBlank(s[0]) {
      CompactIgnoresStart(s[1..]);
    }
  }

  lemma {:induction false} CompactIgnoresEnd(s: string)
    ensures Compact(TrimEnd(s, IsBlank)) == Compact(s)
  {
    if s != "" && IsBlank(s[|s| - 1]) {
      CompactIgnoresEnd(s[..|s| - 1]);
      CompactConcat(s[..|s| - 1], [s[|s| - 1]]);
      assert s == s[..|s| - 1] + [s[|s| - 1]];
    }
  }

  lemma CompactIgnoresTrim(s: string)
    ensures Compact(Trim(s, IsBlank)) == Compact(s)
  {
    CompactIgnoresStart(s);
    CompactIgnoresEnd(TrimStart(s, IsBlank));
  }

  /** Trimming leaves nothing exactly when there was nothing but white space. */
  lemma NothingLeftIff(s: string)
    ensures Trim(s, IsBlank) == "" <==> Compact(s) == ""
  {
    CompactIgnoresTrim(s);
    TrimIsTrimmed(s, IsBlank);
  }

  // ---------------------------------------------------------------- hexadecimal

  predicate IsHexChar(c: char) {
    '0' <= c <= '9' || 'a' <= c <= 'f' || 'A' <= c <= 'F'
  }

  predicate AllHex(s: string) {
    forall i | 0 <= i < |s| :: IsHexChar(s[i])
  }

  function Numeral(n: nat): (c: char)
    requires n < 16
    ensures IsHexChar(c) && !IsBlank(c)
  {
    if n < 10 then '0' + n as char else 'a' + (n - 10) as char
  }

  function DigitValue(c: char): (n: nat)
    requires IsHexChar(c)
    ensures n < 16
  {
    if c <= '9' then (c - '0') as nat else if c <= 'F' then (c - 'A') as nat + 10 else (c - 'a') as nat + 10
  }

  function Lower(c: char): char {
    if 'A' <= c <= 'Z' then 'a' + (c - 'A') else c
  }

  function Lowered(s: string): (r: string)
    ensures |r| == |s|
  {
    seq(|s|, i requires 0 <= i < |s| => Lower(s[i]))
  }

  /** A number written in base 16 without leading zeros. */
  function ToBase16(n: nat): string {
    if n < 16 then [Numeral(n)] else ToBase16(n / 16) + [Numeral(n % 16)]
  }

  function PadStart(s: string, width: nat, fill: char): string {
    if |s| >= width then s else seq(width - |s|, _ => fill) + s
  }

  function FromBase16(s: string): nat
    requires AllHex(s)
  {
    if s == "" then 0 else FromBase16(s[..|s| - 1]) * 16 + DigitValue(s[|s| - 1])
  }

  function BytesToHex(b: Bytes): string {
    if b == [] then "" else PadStart(ToBase16(b[0]), 2, '0') + BytesToHex(b[1..])
  }

  /** The bytes of an even number of hexadecimal digits. */
  function HexPairs(s: string): (b: Bytes)
    requires AllHex(s) && |s| % 2 == 0
    ensures |b| == |s| / 2
  {
    if s == "" then []
    else
      PairIsByte(s[..2]);
      [FromBase16(s[..2])] + HexPairs(s[2..])
  }

  lemma PairIsByte(s: string)
    requires |s| == 2 && AllHex(s)
    ensures FromBase16(s) == DigitValue(s[0]) * 16 + DigitValue(s[1])
    ensures FromBase16(s) < 256
  {
    assert s[..1] == [s[0]];
    assert s[..1][..0] == "";
    assert FromBase16(s[..1]) == DigitValue(s[0]);
  }

  lemma PairsHead(s: string)
    requires AllHex(s) && |s| % 2 == 0 && s != ""
    ensures FromBase16(s[..2]) < 256
    ensures HexPairs(s) == [FromBase16(s[..2])] + HexPairs(s[2..])
  {
    PairIsByte(s[..2]);
  }

  lemma {:induction false} PairsSnoc(s: string)
    requires AllHex(s) && |s| % 2 == 0 && s != ""
    ensures HexPairs(s) == HexPairs(s[..|s| - 2]) + [FromBase16(s[|s| - 2..])]
  {
    if |s| > 2 {
      var tail, front := s[2..], s[..|s| - 2];
      PairsSnoc(tail);
      assert tail[..|tail| - 2] == front[2..];
      assert tail[|tail| - 2..] == s[|s| - 2..];
      PairsHead(s);
      PairsHead(front);
      assert front[..2] == s[..2];
    } else {
      PairsHead(s);
      assert s[..2] == s[|s| - 2..];
      assert s[2..] == "" && s[..|s| - 2] == "";
    }
  }

  lemma PairsStep(s: string, i: nat)
    requires AllHex(s) && i % 2 == 0 && i + 2 <= |s|
    ensures FromBase16(s[i..i + 2]) < 256
    ensures HexPairs(s[..i + 2]) == HexPairs(s[..i]) + [FromBase16(s[i..i + 2])]
  {
    var front := s[..i + 2];
    PairsSnoc(front);
    assert front[..i] == s[..i] && front[i..] == s[i..i + 2];
    PairIsByte(s[i..i + 2]);
  }

  const BAD_HEX := "PSBT hex input must contain an even-length hexadecimal string."
  const NO_PAYLOAD := "A PSBT payload is required."
  const BAD_PAYLOAD := "Failed to decode PSBT payload: "

  function ReadHex(value: string): Result<Bytes, string> {
    var normalized := Compact(Trim(value, IsBlank));
    if normalized == "" || !AllHex(normalized) || |normalized| % 2 != 0 then Failure(BAD_HEX)
    else Success(HexPairs(normalized))
  }

  method HexToBytes(value: string) returns (r: Result<Bytes, string>)
    ensures r == ReadHex(value)
  {
    var normalized := Compact(Trim(value, IsBlank));
    if normalized == "" || !AllHex(normalized) || |normalized| % 2 != 0 {
      return Failure(BAD_HEX);
    }
    var result := FillPairs(normalized);
    r := Success(result[..]);
  }

  method FillPairs(normalized: string) returns (result: array<Byte>)
    requires AllHex(normalized) && |normalized| % 2 == 0
    ensures result[..] == HexPairs(normalized)
  {
    result := new Byte[|normalized| / 2](_ => 0);
    var i := 0;
    while i < |normalized|
      invariant 0 <= i <= |normalized| && i % 2 == 0
      invariant result[..i / 2] == HexPairs(normalized[..i])
    {
      PairsStep(normalized, i);
      result[i / 2] := FromBase16(normalized[i..i + 2]);
      assert result[..i / 2 + 1] == result[..i / 2] + [result[i / 2]];
      i := i + 2;
    }
    assert normalized[..i] == normalized;
    assert result[..i / 2] == result[..];
  }

  lemma ByteAsPair(n: Byte)
    ensures PadStart(ToBase16(n), 2, '0') == [Numeral(n / 16), Numeral(n % 16)]
  {
    if n >= 16 {
      assert ToBase16(n / 16) == [Numeral(n / 16)];
    }
  }

  /** Every byte string has an even, blank-free hexadecimal text that reads back as itself. */
  lemma {:induction false} HexRoundTrip(b: Bytes)
    ensures var t := BytesToHex(b); AllHex(t) && Solid(t) && |t| == 2 * |b| && HexPairs(t) == b
  {
    if b != [] {
      HexRoundTrip(b[1..]);
      ByteAsPair(b[0]);
      var pair := [Numeral(b[0] / 16), Numeral(b[0] % 16)];
      var t := BytesToHex(b);
      assert t == pair + BytesToHex(b[1..]);
      assert t[..2] == pair && t[2..] == BytesToHex(b[1..]);
      PairIsByte(pair);
    }
  }

  lemma DigitWritten(c: char, n: nat)
    requires IsHexChar(c) && n == DigitValue(c)
    ensures Numeral(n) == Lower(c)
  {
  }

  lemma NibblesWritten(x: nat, y: nat)
    requires x < 16 && y < 16
    ensures PadStart(ToBase16(x * 16 + y), 2, '0') == [Numeral(x), Numeral(y)]
  {
    ByteAsPair(x * 16 + y);
    assert (x * 16 + y) / 16 == x && (x * 16 + y) % 16 == y;
  }

  lemma PairWritten(s: string)
    requires |s| == 2 && AllHex(s)
    ensures FromBase16(s) < 256
    ensures PadStart(ToBase16(FromBase16(s)), 2, '0') == [Lower(s[0]), Lower(s[1])]
  {
    PairIsByte(s);
    var x, y := DigitValue(s[0]), DigitValue(s[1]);
    DigitWritten(s[0], x);
    DigitWritten(s[1], y);
    NibblesWritten(x, y);
  }

  /** Writing back what was read gives the same digits in lower case. */
  lemma {:induction false} HexReadThenWritten(s: string)
    requires AllHex(s) && |s| % 2 == 0
    ensures BytesToHex(HexPairs(s)) == Lowered(s)
  {
    if s != "" {
      HexReadThenWritten(s[2..]);
      PairsHead(s);
      var b := HexPairs(s);
      assert b[1..] == HexPairs(s[2..]);
      PairWritten(s[..2]);
      assert BytesToHex(b) == [Lower(s[0]), Lower(s[1])] + BytesToHex(b[1..]);
      assert Lowered(s) == [Lower(s[0]), Lower(s[1])] + Lowered(s[2..]);
    }
  }

  // ---------------------------------------------------------------- base64

  /** A value of six bits. */
  type Sextet = n: nat | n < 64

  function Code(v: Sextet): (c: char)
    ensures !IsBlank(c) && c != '='
  {
    if v < 26 then 'A' + v as char
    else if v < 52 then 'a' + (v - 26) as char
    else if v < 62 then '0' + (v - 52) as char
    else if v == 62 then '+' else '/'
  }

  predicate InAlphabet(c: char) {
    'A' <= c <= 'Z' || 'a' <= c <= 'z' || '0' <= c <= '9' || c == '+' || c == '/'
  }

  function Value(c: char): Sextet
    requires InAlphabet(c)
  {
    if c == '+' then 62 else if c == '/' then 63
    else if c <= '9' then (c - '0') as nat + 52
    else if c <= 'Z' then (c - 'A') as nat
    else (c - 'a') as nat + 26
  }

  lemma CodeRoundTrip(v: Sextet)
    ensures InAlphabet(Code(v)) && Value(Code(v)) == v
  {
  }

  predicate Latin1(s: string) {
    forall i | 0 <= i < |s| :: s[i] < '\U{100}'
  }

  function CharsOf(b: Bytes): (s: string)
    ensures |s| == |b| && Latin1(s)
    ensures forall i | 0 <= i < |b| :: s[i] as int == b[i]
  {
    seq(|b|, i requires 0 <= i < |b| => b[i] as char)
  }

  function CodesOf(s: string): (b: Bytes)
    requires Latin1(s)
    ensures |b| == |s|
    ensures forall i | 0 <= i < |s| :: b[i] == s[i] as int
  {
    seq(|s|, i requires 0 <= i < |s| => s[i] as int)
  }

  function Quad(x: Byte, y: Byte, z: Byte): string {
    [Code(x / 4), Code(x % 4 * 16 + y / 16), Code(y % 16 * 4 + z / 64), Code(z % 64)]
  }

  function LastOne(x: Byte): string {
    [Code(x / 4), Code(x % 4 * 16), '=', '=']
  }

  function LastTwo(x: Byte, y: Byte): string {
    [Code(x / 4), Code(x % 4 * 16 + y / 16), Code(y % 16 * 4), '=']
  }

  /** Encoding of a byte string: three bytes to four characters, padded with '='. */
  function Base64Text(b: Bytes): string {
    if b == [] then ""
    else if |b| == 1 then LastOne(b[0])
    else if |b| == 2 then LastTwo(b[0], b[1])
    else Quad(b[0], b[1], b[2]) + Base64Text(b[3..])
  }

  /** The platform's encoder, which works on a string of characters below U+0100. */
  function Btoa(binary: string): string
    requires Latin1(binary)
  {
    Base64Text(CodesOf(binary))
  }

  method BytesToBase64(bytes: Bytes) returns (text: string)
    ensures text == Base64Text(bytes)
  {
    var binary := "";
    var i := 0;
    while i < |bytes|
      invariant 0 <= i <= |bytes|
      invariant binary == CharsOf(bytes[..i])
    {
      binary := binary + [bytes[i] as char];
      i := i + 1;
    }
    assert CodesOf(binary) == bytes;
    text := Btoa(binary);
  }

  predicate AllInAlphabet(s: string) {
    forall i | 0 <= i < |s| :: InAlphabet(s[i])
  }

  /** At most two padding characters are dropped, and only when the length is a multiple of four. */
  function Unpadded(s: string): (r: string)
    ensures r <= s
  {
    if s == "" || |s| % 4 != 0 || s[|s| - 1] != '=' then s
    else if s[|s| - 2] == '=' then s[..|s| - 2]
    else s[..|s| - 1]
  }

  /** The bytes of a run of base64 digits; bits left over at the end are dropped. */
  function Sextets(s: string): Bytes
    requires AllInAlphabet(s)
  {
    if |s| < 2 then []
    else if |s| == 2 then [Value(s[0]) * 4 + Value(s[1]) / 16]
    else if |s| == 3 then
      [Value(s[0]) * 4 + Value(s[1]) / 16, Value(s[1]) % 16 * 16 + Value(s[2]) / 4]
    else
      [Value(s[0]) * 4 + Value(s[1]) / 16, Value(s[1]) % 16 * 16 + Value(s[2]) / 4,
       Value(s[2]) % 4 * 64 + Value(s[3])] + Sextets(s[4..])
  }

  /** The platform's decoder on text without white space. */
  function Atob(s: string): Option<string> {
    var digits := Unpadded(s);
    if |digits| % 4 == 1 || !AllInAlphabet(digits) then None
    else Some(CharsOf(Sextets(digits)))
  }

  function Base64ToBytes(value: string): Result<Bytes, string> {
    match Atob(Compact(value))
    case None => Failure("invalid character or length")
    case Some(binary) => if Latin1(binary) then Success(CodesOf(binary)) else Failure("invalid character")
  }

  /** Well-formed base64 text whose digits, its padding removed, stand for the bytes. */
  predicate ReadsAs(t: string, b: Bytes) {
    && |t| % 4 == 0 && Solid(t) && |Unpadded(t)| % 4 != 1
    && AllInAlphabet(Unpadded(t)) && Sextets(Unpadded(t)) == b
  }

  /** What holds of the encoding's pieces holds of every encoding. */
  lemma {:induction false} EncodingInduction(holds: (string, Bytes) -> bool, b: Bytes)
    requires holds("", []) && forall x: Byte :: holds(LastOne(x), [x])
    requires forall x: Byte, y: Byte :: holds(LastTwo(x, y), [x, y])
    requires forall x: Byte, y: Byte, z: Byte, more: Bytes, rest: string ::
               holds(rest, more) ==> holds(Quad(x, y, z) + rest, [x, y, z] + more)
    ensures holds(Base64Text(b), b)
  {
    if |b| == 1 {
      assert b == [b[0]];
    } else if |b| == 2 {
      assert b == [b[0], b[1]];
    } else if |b| >= 3 {
      EncodingInduction(holds, b[3..]);
      assert b == [b[0], b[1], b[2]] + b[3..];
    }
  }

  lemma Base64Shape(b: Bytes)
    ensures ReadsAs(Base64Text(b), b)
  {
    forall x: Byte ensures ReadsAs(LastOne(x), [x]) {
      OneShape(x);
    }
    forall x: Byte, y: Byte ensures ReadsAs(LastTwo(x, y), [x, y]) {
      TwoShape(x, y);
    }
    forall x: Byte, y: Byte, z: Byte, more: Bytes, rest: string | ReadsAs(rest, more)
      ensures ReadsAs(Quad(x, y, z) + rest, [x, y, z] + more)
    {
      LongReads(x, y, z, more, rest);
    }
    EncodingInduction(ReadsAs, b);
  }

  lemma LongReads(x: Byte, y: Byte, z: Byte, more: Bytes, rest: string)
    requires ReadsAs(rest, more)
    ensures ReadsAs(Quad(x, y, z) + rest, [x, y, z] + more)
  {
    var quad := Quad(x, y, z);
    QuadReads(x, y, z, quad);
    SolidConcat(quad, rest);
    LongShape(quad, rest);
  }

  lemma LongShape(quad: string, rest: string)
    requires |quad| == 4 && AllInAlphabet(quad)
    requires |rest| % 4 == 0 && |Unpadded(rest)| % 4 != 1 && AllInAlphabet(Unpadded(rest))
    ensures var t := quad + rest;
      && |t| % 4 == 0 && |Unpadded(t)| % 4 != 1 && AllInAlphabet(Unpadded(t))
      && Sextets(Unpadded(t)) == Sextets(quad) + Sextets(Unpadded(rest))
  {
    UnpaddedTail(quad, rest);
    SextetsStep(quad, Unpadded(rest));
    FourMore(|rest|);
    FourMore(|Unpadded(rest)|);
  }

  lemma FourMore(n: nat)
    ensures (4 + n) % 4 == n % 4
  {
  }

  lemma SolidConcat(s: string, t: string)
    requires Solid(s) && Solid(t)
    ensures Solid(s + t)
  {
  }

  lemma SextetsStep(quad: string, digits: string)
    requires |quad| == 4 && AllInAlphabet(quad) && AllInAlphabet(digits)
    ensures AllInAlphabet(quad + digits) && Sextets(quad + digits) == Sextets(quad) + Sextets(digits)
  {
    AlphabetConcat(quad, digits, quad + digits);
    SextetsHead(quad + digits, quad, digits);
    SextetsHead(quad, quad, "");
  }

  lemma AlphabetConcat(s: string, t: string, both: string)
    requires AllInAlphabet(s) && AllInAlphabet(t) && both == s + t
    ensures AllInAlphabet(both)
  {
  }

  lemma SextetsHead(s: string, quad: string, digits: string)
    requires |quad| == 4 && s == quad + digits && AllInAlphabet(s) && AllInAlphabet(quad) && AllInAlphabet(digits)
    ensures Sextets(s) == [Value(quad[0]) * 4 + Value(quad[1]) / 16, Value(quad[1]) % 16 * 16 + Value(quad[2]) / 4,
                           Value(quad[2]) % 4 * 64 + Value(quad[3])] + Sextets(digits)
  {
    assert s[4..] == digits;
  }

  lemma QuadReads(x: Byte, y: Byte, z: Byte, quad: string)
    requires quad == Quad(x, y, z)
    ensures Solid(quad) && AllInAlphabet(quad) && Sextets(quad) == [x, y, z]
  {
    QuadShape(x, y, z, quad);
    assert quad[4..] == "";
  }

  lemma QuadShape(x: Byte, y: Byte, z: Byte, quad: string)
    requires quad == Quad(x, y, z)
    ensures AllInAlphabet(quad)
    ensures Value(quad[0]) * 4 + Value(quad[1]) / 16 == x
    ensures Value(quad[1]) % 16 * 16 + Value(quad[2]) / 4 == y
    ensures Value(quad[2]) % 4 * 64 + Value(quad[3]) == z
  {
    CodeRoundTrip(x / 4);
    CodeRoundTrip(x % 4 * 16 + y / 16);
    CodeRoundTrip(y % 16 * 4 + z / 64);
    CodeRoundTrip(z % 64);
  }

  lemma {:induction false} Base64Length(b: Bytes)
    ensures |Base64Text(b)| % 4 == 0 && (b != [] ==> Base64Text(b) != "")
  {
    if |b| >= 3 {
      Base64Length(b[3..]);
    }
  }

  lemma OneShape(x: Byte)
    ensures ReadsAs(LastOne(x), [x])
  {
    QuadShape(x, 0, 0, Quad(x, 0, 0));
    var t := LastOne(x);
    assert Unpadded(t) == t[..2];
  }

  lemma TwoShape(x: Byte, y: Byte)
    ensures ReadsAs(LastTwo(x, y), [x, y])
  {
    QuadShape(x, y, 0, Quad(x, y, 0));
    var t := LastTwo(x, y);
    assert Unpadded(t) == t[..3];
  }

  lemma UnpaddedTail(quad: string, rest: string)
    requires |quad| == 4 && |rest| % 4 == 0 && AllInAlphabet(quad)
    ensures Unpadded(quad + rest) == quad + Unpadded(rest)
  {
    if rest == "" {
      DigitIsNoPadding(quad[3]);
      assert quad + rest == quad;
    } else {
      FourMore(|rest|);
      UnpaddedWithin(quad, rest, quad + rest);
    }
  }

  lemma DigitIsNoPadding(c: char)
    requires InAlphabet(c)
    ensures c != '='
  {
  }

  lemma UnpaddedWithin(quad: string, rest: string, t: string)
    requires |rest| >= 2 && |rest| % 4 == 0 && t == quad + rest && |t| % 4 == 0
    ensures Unpadded(t) == quad + Unpadded(rest)
  {
    assert t[|t| - 1] == rest[|rest| - 1] && t[|t| - 2] == rest[|rest| - 2];
  }

  // ---------------------------------------------------------------- telling the forms apart

  function DecodePsbtText(value: string): Result<Payload, string> {
    var normalized := Trim(value, IsBlank);
    if normalized == "" then Failure(NO_PAYLOAD)
    else
      var compact := Compact(normalized);
      if compact != "" && AllHex(compact) && |compact| % 2 == 0 then
        match ReadHex(compact)
        case Success(bytes) => Success(Payload(bytes, HexFormat))
        case Failure(error) => Failure(error)
      else
        match Base64ToBytes(compact)
        case Success(bytes) => Success(Payload(bytes, Base64Format))
        case Failure(error) => Failure(BAD_PAYLOAD + error)
  }

  lemma HexWins(value: string, t: string)
    requires Compact(value) == t && t != "" && AllHex(t) && |t| % 2 == 0
    ensures DecodePsbtText(value) == Success(Payload(HexPairs(t), HexFormat))
  {
    NothingLeftIff(value);
    CompactIgnoresTrim(value);
    CompactIgnoresTrim(t);
    SolidIsCompact(t);
  }

  /** Hexadecimal text in either letter case, with any white space put into it, is read back for every
      byte string. */
  lemma HexTextReadsBack(b: Bytes, value: string)
    requires b != [] && Lowered(Compact(value)) == BytesToHex(b)
    ensures DecodePsbtText(value) == Success(Payload(b, HexFormat))
  {
    var t := Compact(value);
    HexRoundTrip(b);
    LoweredIsHex(t);
    LoweredReadsAlike(t);
    HexWins(value, t);
  }

  lemma LoweredIsHex(t: string)
    requires AllHex(Lowered(t))
    ensures AllHex(t)
  {
    forall i | 0 <= i < |t|
      ensures IsHexChar(t[i])
    {
      assert IsHexChar(Lowered(t)[i]);
    }
  }

  /** The text as written is a case of this. */
  lemma HexIsLowered(b: Bytes)
    ensures Lowered(BytesToHex(b)) == BytesToHex(b)
  {
    HexRoundTrip(b);
    HexReadThenWritten(BytesToHex(b));
  }

  lemma Base64Taken(value: string, t: string, b: Bytes)
    requires Compact(value) == t && t != "" && ReadsAs(t, b) && !AllHex(t)
    ensures DecodePsbtText(value) == Success(Payload(b, Base64Format))
  {
    NothingLeftIff(value);
    CompactIgnoresTrim(value);
    SolidIsCompact(t);
    assert Atob(t) == Some(CharsOf(b));
    assert CodesOf(CharsOf(b)) == b;
  }

  lemma FourIsEven(n: nat, q: nat)
    requires n == 4 * q
    ensures n % 2 == 0
  {
    assert n == 2 * (2 * q);
  }

  lemma MistakenForHex(value: string, t: string, b: Bytes)
    requires Compact(value) == t && t != "" && |t| % 2 == 0 && AllHex(t)
    ensures DecodePsbtText(value) != Success(Payload(b, Base64Format))
  {
    HexWins(value, t);
  }

  /** Text standing for some bytes in base64 is read as such exactly when it holds a character that
      is not a hexadecimal digit. */
  lemma TakenIff(value: string, t: string, b: Bytes)
    requires Compact(value) == t && t != "" && ReadsAs(t, b)
    ensures DecodePsbtText(value) == Success(Payload(b, Base64Format)) <==> !AllHex(t)
  {
    if AllHex(t) {
      FourIsEven(|t|, |t| / 4);
      MistakenForHex(value, t, b);
    } else {
      Base64Taken(value, t, b);
    }
  }

  /** Base64 text, with any white space put into it, is read back exactly when it holds a character
      that is not a hexadecimal digit. */
  lemma Base64TextReadsBackIff(b: Bytes, value: string)
    requires b != [] && Compact(value) == Base64Text(b)
    ensures DecodePsbtText(value) == Success(Payload(b, Base64Format)) <==> !AllHex(Base64Text(b))
  {
    Base64Shape(b);
    Base64Length(b);
    TakenIff(value, Base64Text(b), b);
  }

  /** The four magic bytes of BIP 174 and their separator. */
  const MAGIC: Bytes := [0x70, 0x73, 0x62, 0x74, 0xff]

  lemma MagicIsNotHex(psbt: Bytes)
    requires MAGIC <= psbt
    ensures !AllHex(Base64Text(psbt))
  {
    assert psbt[0] == 0x70 && psbt[1] == 0x73;
    assert Base64Text(psbt)[1] == Code(7) == 'H';
    assert !IsHexChar('H');
  }

  /** Whatever follows the magic, the base64 text of a PSBT is not taken for hexadecimal. */
  lemma PsbtTextRoundTrip(psbt: Bytes, value: string)
    requires MAGIC <= psbt
    ensures Compact(value) == BytesToHex(psbt) ==>
      DecodePsbtText(value) == Success(Payload(psbt, HexFormat))
    ensures Compact(value) == Base64Text(psbt) ==>
      DecodePsbtText(value) == Success(Payload(psbt, Base64Format))
  {
    if Compact(value) == BytesToHex(psbt) {
      HexIsLowered(psbt);
      HexTextReadsBack(psbt, value);
    }
    if Compact(value) == Base64Text(psbt) {
      MagicIsNotHex(psbt);
      Base64TextReadsBackIff(psbt, value);
    }
  }

  /** Without the magic the forms can be confused: these three bytes come back as two others. */
  lemma AmbiguousText()
    ensures var b: Bytes := [0x69, 0xb7, 0x1d];
      && Base64Text(b) == "abcd"
      && DecodePsbtText(Base64Text(b)) == Success(Payload([0xab, 0xcd], HexFormat))
  {
    AbcdText([0x69, 0xb7, 0x1d]);
    FourDigits("abcd");
    SolidIsCompact("abcd");
    HexWins("abcd", "abcd");
  }

  lemma AbcdText(b: Bytes)
    requires b == [0x69, 0xb7, 0x1d]
    ensures Base64Text(b) == "abcd"
  {
    assert b[3..] == [];
  }

  lemma FourDigits(t: string)
    requires t == "abcd"
    ensures AllHex(t) && HexPairs(t) == [0xab, 0xcd]
  {
    var u := t[2..];
    PairsHead(t);
    PairsHead(u);
    PairIsByte(t[..2]);
    PairIsByte(u[..2]);
    assert u[2..] == "";
  }

  /** Two texts that are read as hexadecimal stand for the same bytes exactly when they agree up to
      white space and letter case. */
  lemma SameHexPayloadIff(v: string, w: string)
    requires DecodePsbtText(v).Success? && DecodePsbtText(v).value.format == HexFormat
    requires DecodePsbtText(w).Success? && DecodePsbtText(w).value.format == HexFormat
    ensures DecodePsbtText(v) == DecodePsbtText(w) <==> Lowered(Compact(v)) == Lowered(Compact(w))
  {
    ReadAsHex(v);
    ReadAsHex(w);
    LoweredReadsAlike(Compact(v));
    LoweredReadsAlike(Compact(w));
  }

  lemma ReadAsHex(v: string)
    requires DecodePsbtText(v).Success? && DecodePsbtText(v).value.format == HexFormat
    ensures var t := Compact(v);
      AllHex(t) && |t| % 2 == 0 && DecodePsbtText(v).value.bytes == HexPairs(t) && BytesToHex(HexPairs(t)) == Lowered(t)
  {
    var t := Compact(v);
    NothingLeftIff(v);
    CompactIgnoresTrim(v);
    assert AllHex(t) && |t| % 2 == 0;
    HexWins(v, t);
    HexReadThenWritten(t);
  }

  lemma {:induction false} LoweredReadsAlike(s: string)
    requires AllHex(s) && |s| % 2 == 0
    ensures AllHex(Lowered(s)) && HexPairs(Lowered(s)) == HexPairs(s)
  {
    HexReadThenWritten(s);
    HexRoundTrip(HexPairs(s));
  }

  /** Reading fails exactly on blank text and on text that is neither form. */
  lemma UnreadableIff(value: string)
    ensures DecodePsbtText(value) == Failure(NO_PAYLOAD) <==> Compact(value) == ""
    ensures DecodePsbtText(value).Failure? && DecodePsbtText(value) != Failure(NO_PAYLOAD) <==>
      var t := Compact(value); t != "" && !(AllHex(t) && |t| % 2 == 0) && Atob(t).None?
  {
    var t := Compact(value);
    NothingLeftIff(value);
    CompactIgnoresTrim(value);
    CompactIsSolid(value);
    SolidIsCompact(t);
    CompactIgnoresTrim(t);
    assert BAD_PAYLOAD[0] != NO_PAYLOAD[0];
  }

  // ---------------------------------------------------------------- the alphabets

  const UPPER := "ABCDEFGHIJKLMNOPQRSTUVWXYZ"
  const LOWER := "abcdefghijklmnopqrstuvwxyz"
  const FIGURES := "0123456789"

  /** The digits of section 4 of RFC 4648. */
  function Base64Digit(v: Sextet): char {
    if v < 26 then UPPER[v] else if v < 52 then LOWER[v - 26] else if v < 62 then FIGURES[v - 52] else "+/"[v - 62]
  }

  lemma LettersInOrder(n: nat)
    requires n < 26
    ensures UPPER[n] == 'A' + n as char && LOWER[n] == 'a' + n as char
  {
    match n
    case 0 =>
    case 1 =>
    case 2 =>
    case 3 =>
    case 4 =>
    case 5 =>
    case 6 =>
    case 7 =>
    case 8 =>
    case 9 =>
    case 10 =>
    case 11 =>
    case 12 =>
    case 13 =>
    case 14 =>
    case 15 =>
    case 16 =>
    case 17 =>
    case 18 =>
    case 19 =>
    case 20 =>
    case 21 =>
    case 22 =>
    case 23 =>
    case 24 =>
    case 25 =>
  }

  lemma DigitsAreStandard(v: Sextet)
    ensures Code(v) == Base64Digit(v)
  {
    if v < 26 {
      LettersInOrder(v);
    } else if v < 52 {
      LettersInOrder(v - 26);
    } else {
      FiguresInOrder(v);
    }
  }

  lemma FiguresInOrder(v: Sextet)
    requires v >= 52
    ensures Code(v) == Base64Digit(v)
  {
  }

  lemma NumeralsAreStandard(n: nat)
    requires n < 16
    ensures Numeral(n) == "0123456789abcdef"[n]
  {
  }

  /** What is read as a base64 digit is what is written as one. */
  lemma AlphabetIsStandard(c: char)
    ensures InAlphabet(c) <==> exists v: Sextet :: Base64Digit(v) == c
  {
    if InAlphabet(c) {
      CodeOfValue(c);
      DigitsAreStandard(Value(c));
    } else {
      forall v: Sextet
        ensures Base64Digit(v) != c
      {
        DigitsAreStandard(v);
        CodeRoundTrip(v);
      }
    }
  }

  lemma CodeOfValue(c: char)
    requires InAlphabet(c)
    ensures Code(Value(c)) == c
  {
  }

  /** Hexadecimal digits are read in either letter case. */
  lemma HexCharacters(c: char)
    ensures IsHexChar(c) <==> exists n: nat | n < 16 :: c == "0123456789abcdef"[n] || c == "0123456789ABCDEF"[n]
    ensures forall n: nat | n < 16 && (c == "0123456789abcdef"[n] || c == "0123456789ABCDEF"[n]) :: IsHexChar(c) && DigitValue(c) == n
  {
    if IsHexChar(c) {
      var n := DigitValue(c);
      assert c == "0123456789abcdef"[n] || c == "0123456789ABCDEF"[n];
    }
  }

  /** Three bytes are one number of 24 bits, written as four digits of six bits, high bits first. */
  lemma QuadIsNumber(x: Byte, y: Byte, z: Byte)
    ensures var n := x * 65536 + y * 256 + z;
            && n / 262144 < 64
            && Quad(x, y, z) ==
                 [Base64Digit(n / 262144), Base64Digit(n / 4096 % 64), Base64Digit(n / 64 % 64), Base64Digit(n % 64)]
  {
    var n := x * 65536 + y * 256 + z;
    SixBits(x, y, z);
    QuadDigits(x, y, z, n / 262144, n / 4096 % 64, n / 64 % 64, n % 64);
  }

  lemma QuadDigits(x: Byte, y: Byte, z: Byte, a: Sextet, b: Sextet, c: Sextet, d: Sextet)
    requires a == x / 4 && b == x % 4 * 16 + y / 16 && c == y % 16 * 4 + z / 64 && d == z % 64
    ensures Quad(x, y, z) == [Base64Digit(a), Base64Digit(b), Base64Digit(c), Base64Digit(d)]
  {
    DigitsAreStandard(a);
    DigitsAreStandard(b);
    DigitsAreStandard(c);
    DigitsAreStandard(d);
  }

  lemma SixBits(x: Byte, y: Byte, z: Byte)
    ensures var n := x * 65536 + y * 256 + z;
            n / 262144 == x / 4 && n / 4096 % 64 == x % 4 * 16 + y / 16
            && n / 64 % 64 == y % 16 * 4 + z / 64 && n % 64 == z % 64
  {
    var a, b := x / 4, x % 4;
    var c, d := y / 16, y % 16;
    var e, f := z / 64, z % 64;
    var n := x * 65536 + y * 256 + z;
    assert n == 64 * (64 * (64 * a + (b * 16 + c)) + (d * 4 + e)) + f;
    DivMod64(64 * (64 * a + (b * 16 + c)) + (d * 4 + e), f);
    DivMod64(64 * a + (b * 16 + c), d * 4 + e);
    DivMod64(a, b * 16 + c);
    NestedDiv(n);
  }

  lemma DivMod64(q: nat, r: nat)
    requires r < 64
    ensures (64 * q + r) / 64 == q && (64 * q + r) % 64 == r
  {
  }

  lemma NestedDiv(n: nat)
    ensures n / 4096 == n / 64 / 64 && n / 262144 == n / 64 / 64 / 64
  {
  }

  /** A rest of one or two bytes is written as if zero bytes followed, the digits of those replaced by
      padding; whole groups of three are written one after the other. */
  lemma Base64Layout(b: Bytes)
    ensures |b| == 1 ==> Base64Text(b) == Quad(b[0], 0, 0)[..2] + "=="
    ensures |b| == 2 ==> Base64Text(b) == Quad(b[0], b[1], 0)[..3] + "="
    ensures |b| >= 3 ==> Base64Text(b) == Quad(b[0], b[1], b[2]) + Base64Text(b[3..])
  {
    if |b| == 1 {
      OneRest(b[0]);
    } else if |b| == 2 {
      TwoRest(b[0], b[1]);
    }
  }

  lemma OneRest(x: Byte)
    ensures LastOne(x) == Quad(x, 0, 0)[..2] + "=="
  {
  }

  lemma TwoRest(x: Byte, y: Byte)
    ensures LastTwo(x, y) == Quad(x, y, 0)[..3] + "="
  {
  }

  /** What counts as white space. */
  lemma BlankCharacters(c: char)
    ensures IsBlank(c) <==>
              c in "\t\n\U{0B}\U{0C}\r \U{A0}\U{1680}\U{2000}\U{2001}\U{2002}\U{2003}\U{2004}\U{2005}\U{2006}\U{2007}\U{2008}\U{2009}\U{200A}\U{2028}\U{2029}\U{202F}\U{205F}\U{3000}\U{FEFF}"
  {
  }

  /** Hexadecimal text writes each byte as two digits, the high one first. */
  lemma {:induction false} HexLayout(b: Bytes)
    ensures HexPairsOf(b, BytesToHex(b))
  {
    if b != [] {
      HexLayout(b[1..]);
      ByteAsPair(b[0]);
      NumeralsAreStandard(b[0] / 16);
      NumeralsAreStandard(b[0] % 16);
      PairsLayout(b, [Numeral(b[0] / 16), Numeral(b[0] % 16)], BytesToHex(b[1..]));
    }
  }

  ghost predicate HexPairsOf(b: Bytes, t: string) {
    && |t| == 2 * |b|
    && forall k | 0 <= k < |b| :: t[2 * k] == "0123456789abcdef"[b[k] / 16] && t[2 * k + 1] == "0123456789abcdef"[b[k] % 16]
  }

  lemma PairsLayout(b: Bytes, pair: string, rest: string)
    requires b != [] && HexPairsOf(b[..1], pair) && HexPairsOf(b[1..], rest)
    ensures HexPairsOf(b, pair + rest)
  {
    var t := pair + rest;
    forall k | 0 <= k < |b|
      ensures t[2 * k] == "0123456789abcdef"[b[k] / 16] && t[2 * k + 1] == "0123456789abcdef"[b[k] % 16]
    {
      if k > 0 {
        assert b[1..][k - 1] == b[k];
        assert t[2 * k] == rest[2 * (k - 1)] && t[2 * k + 1] == rest[2 * (k - 1) + 1];
      } else {
        assert b[..1][0] == b[0];
      }
    }
  }
}
