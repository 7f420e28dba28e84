/** How the simulator reads identifiers out of the text printed by external commands:
    whitespace stripping and the two leftmost-match regular expressions. */
module OutputText {
  import opened Wrappers
  import opened Strings

  predicate IsSpace(c: char) {
    c == ' ' || '\t' <= c <= '\r' || '\U{1C}' <= c <= '\U{1F}'
  }

  predicate IsDigit(c: char) {
    '0' <= c <= '9'
  }

  predicate IsHex(c: char) {
    IsDigit(c) || 'a' <= c <= 'f'
  }

  predicate IsWord(c: char) {
    IsDigit(c) || 'a' <= c <= 'z' || 'A' <= c <= 'Z' || c == '_'
  }

  // ---------------------------------------------------------------- strip

  function Strip(s: string): string {
    Trim(s, IsSpace)
  }

  /** Text that was stripped when a command returned is unchanged when it is stripped again
      on its way back from a result file. */
  lemma StripIdempotent(s: string)
    ensures Strip(Strip(s)) == Strip(s)
  {
    TrimIsTrimmed(s, IsSpace);
  }

  // ---------------------------------------------------------------- patterns

  predicate HexRun(s: string, i: nat, n: nat) {
    i + n <= |s| && forall k | i <= k < i + n :: IsHex(s[k])
  }

  /** Index just past the run of decimal digits starting at i. */
  function DigitsEnd(s: string, i: nat): (e: nat)
    requires i <= |s|
    ensures i <= e <= |s|
    ensures forall k | i <= k < e :: IsDigit(s[k])
    ensures e < |s| ==> !IsDigit(s[e])
    decreases |s| - i
  {
    if i < |s| && IsDigit(s[i]) then DigitsEnd(s, i + 1) else i
  }

  /** A match of the inscription pattern (64 lower-case hex digits, an 'i', decimal digits) at i. */
  predicate InscriptionAt(s: string, i: nat) {
    HexRun(s, i, 64) && i + 65 < |s| && s[i + 64] == 'i' && IsDigit(s[i + 65])
  }

  /** A match of the transaction id pattern (64 lower-case hex digits between word boundaries) at i. */
  predicate TxidAt(s: string, i: nat) {
    && HexRun(s, i, 64)
    && (i == 0 || !IsWord(s[i - 1]))
    && (i + 64 == |s| || !IsWord(s[i + 64]))
  }

  function FirstInscription(s: string, i: nat): (r: Option<nat>)
    requires i <= |s|
    ensures r.None? ==> forall j | i <= j <= |s| :: !InscriptionAt(s, j)
    ensures r.Some? ==> i <= r.value <= |s| && InscriptionAt(s, r.value)
    ensures r.Some? ==> forall j | i <= j < r.value :: !InscriptionAt(s, j)
    decreases |s| - i
  {
    if InscriptionAt(s, i) then Some(i) else if i == |s| then None else FirstInscription(s, i + 1)
  }

  function FirstTxid(s: string, i: nat): (r: Option<nat>)
    requires i <= |s|
    ensures r.None? ==> forall j | i <= j <= |s| :: !TxidAt(s, j)
    ensures r.Some? ==> i <= r.value <= |s| && TxidAt(s, r.value)
    ensures r.Some? ==> forall j | i <= j < r.value :: !TxidAt(s, j)
    decreases |s| - i
  {
    if TxidAt(s, i) then Some(i) else if i == |s| then None else FirstTxid(s, i + 1)
  }

  function ExtractInscriptionId(s: string): Option<string> {
    match FirstInscription(s, 0)
    case None => None
    case Some(i) => Some(s[i..DigitsEnd(s, i + 65)])
  }

  function ExtractTxid(s: string): (r: Option<string>)
    ensures r.Some? ==> |r.value| == 64
  {
    match FirstTxid(s, 0)
    case None => None
    case Some(i) => Some(s[i..i + 64])
  }

  /** Reading an id out of an id gives that id: a recovered id (from a probe) and a whole
      command output (from the result file) stand for the same inscription. */
  lemma ExtractInscriptionIdIdempotent(s: string)
    requires ExtractInscriptionId(s).Some?
    ensures ExtractInscriptionId(ExtractInscriptionId(s).value) == ExtractInscriptionId(s)
  {
    var i := FirstInscription(s, 0).value;
    var e := DigitsEnd(s, i + 65);
    var id := s[i..e];
    assert e > i + 65;
    assert HexRun(id, 0, 64) && id[64] == 'i' && IsDigit(id[65]);
    assert InscriptionAt(id, 0);
    assert forall k | 65 <= k < |id| :: id[k] == s[i + k];
    assert FirstInscription(id, 0) == Some(0);
    assert DigitsEnd(id, 65) == |id|;
    assert id[0..|id|] == id;
  }

  lemma ExtractTxidIdempotent(s: string)
    requires ExtractTxid(s).Some?
    ensures ExtractTxid(ExtractTxid(s).value) == ExtractTxid(s)
  {
    var i := FirstTxid(s, 0).value;
    var id := s[i..i + 64];
    assert TxidAt(id, 0);
    assert FirstTxid(id, 0) == Some(0);
    assert id[0..64] == id;
  }

  /** An extracted id has no surrounding whitespace. */
  lemma ExtractedIsStripped(s: string)
    ensures ExtractInscriptionId(s).Some? ==>
              ExtractInscriptionId(s).value != "" && Strip(ExtractInscriptionId(s).value) == ExtractInscriptionId(s).value
    ensures ExtractTxid(s).Some? ==> Strip(ExtractTxid(s).value) == ExtractTxid(s).value
  {
    if ExtractInscriptionId(s).Some? {
      var i := FirstInscription(s, 0).value;
      var e := DigitsEnd(s, i + 65);
      assert e > i + 65;
      var id := s[i..e];
      assert id[0] == s[i] && IsHex(id[0]) && id[|id| - 1] == s[e - 1] && IsDigit(s[e - 1]);
    }
    if ExtractTxid(s).Some? {
      var i := FirstTxid(s, 0).value;
      var id := s[i..i + 64];
      assert id[0] == s[i] && id[63] == s[i + 63] && IsHex(s[i + 63]);
    }
  }

  const DIGITS := "0123456789"
  const LOWER := "abcdefghijklmnopqrstuvwxyz"
  const UPPER := "ABCDEFGHIJKLMNOPQRSTUVWXYZ"

  /** The characters of each class. */
  lemma CharacterClasses(c: char)
    ensures IsDigit(c) <==> c in "0123456789"
    ensures IsHex(c) <==> c in "0123456789abcdef"
    ensures IsSpace(c) <==> c in " \t\n\r\U{0B}\U{0C}\U{1C}\U{1D}\U{1E}\U{1F}"
  {
  }

  predicate WordCharacter(c: char) {
    c in DIGITS || c in LOWER || c in UPPER || c == '_'
  }

  lemma WordCharacters(c: char)
    ensures IsWord(c) <==> WordCharacter(c)
  {
    LowerLetters(c);
    UpperLetters(c);
  }

  lemma LowerLetters(c: char)
    ensures 'a' <= c <= 'z' <==> c in LOWER
  {
  }

  lemma UpperLetters(c: char)
    ensures 'A' <= c <= 'Z' <==> c in UPPER
  {
  }

  /** An inscription id as text: 64 lower-case hexadecimal digits, an 'i', and at least one digit. */
  predicate InscriptionText(id: string) {
    && |id| >= 66 && (forall k | 0 <= k < 64 :: id[k] in "0123456789abcdef") && id[64] == 'i'
    && forall k | 65 <= k < |id| :: id[k] in "0123456789"
  }

  predicate InscriptionStands(s: string, id: string, i: int) {
    && 0 <= i <= |s| - |id| && s[i..i + |id|] == id && InscriptionText(id)
    && (i + |id| < |s| ==> s[i + |id|] !in "0123456789")
  }

  /** What is extracted stands in the text, is an id, takes in every digit that follows, and no id starts
      before it; nothing is extracted exactly when no id stands anywhere. */
  lemma ExtractedInscription(s: string)
    ensures match ExtractInscriptionId(s)
            case Some(id) =>
              exists i :: InscriptionStands(s, id, i) && forall j, m | 0 <= j < i && j <= m <= |s| :: !InscriptionText(s[j..m])
            case None => forall j, m | 0 <= j <= m <= |s| :: !InscriptionText(s[j..m])
  {
    forall j, m | 0 <= j <= m <= |s| && InscriptionText(s[j..m])
      ensures InscriptionAt(s, j)
    {
      SubtextIsMatch(s, j, m);
    }
    match FirstInscription(s, 0)
    case None =>
    case Some(i) =>
      var e := DigitsEnd(s, i + 65);
      MatchIsText(s, i, e);
      assert s[i..i + (e - i)] == s[i..e];
      assert InscriptionStands(s, s[i..e], i);
  }

  lemma SubtextIsMatch(s: string, j: nat, m: nat)
    requires j <= m <= |s| && InscriptionText(s[j..m])
    ensures InscriptionAt(s, j)
  {
    var id := s[j..m];
    forall k | j <= k < j + 64
      ensures IsHex(s[k])
    {
      assert s[k] == id[k - j];
      CharacterClasses(s[k]);
    }
    assert s[j + 64] == id[64] && s[j + 65] == id[65];
    CharacterClasses(s[j + 65]);
  }

  lemma MatchIsText(s: string, i: nat, e: nat)
    requires InscriptionAt(s, i) && e == DigitsEnd(s, i + 65)
    ensures e <= |s| && InscriptionText(s[i..e]) && (e < |s| ==> s[e] !in "0123456789")
  {
    var id := s[i..e];
    assert IsDigit(s[i + 65]);
    forall k | 0 <= k < |id|
      ensures k < 64 ==> id[k] in "0123456789abcdef"
      ensures k >= 65 ==> id[k] in "0123456789"
    {
      assert id[k] == s[i + k];
      CharacterClasses(id[k]);
    }
    if e < |s| {
      CharacterClasses(s[e]);
    }
  }

  /** A transaction id stands in the text as 64 lower-case hexadecimal digits with no word character on
      either side. */
  predicate TxidStands(s: string, i: int) {
    && 0 <= i <= |s| - 64 && (forall k | i <= k < i + 64 :: s[k] in "0123456789abcdef")
    && (i > 0 ==> !WordCharacter(s[i - 1]))
    && (i + 64 < |s| ==> !WordCharacter(s[i + 64]))
  }

  /** What is extracted is the first that stands in the text, and nothing is exactly when none does. */
  lemma ExtractedTxid(s: string)
    ensures match ExtractTxid(s)
            case Some(id) => exists i :: TxidStands(s, i) && s[i..i + 64] == id && forall j | 0 <= j < i :: !TxidStands(s, j)
            case None => forall j :: !TxidStands(s, j)
  {
    forall j: int
      ensures TxidStands(s, j) <==> 0 <= j <= |s| && TxidAt(s, j)
    {
      if 0 <= j <= |s| - 64 {
        StandsIffMatches(s, j);
      }
    }
    if FirstTxid(s, 0).Some? {
      assert TxidStands(s, FirstTxid(s, 0).value);
    }
  }

  lemma StandsIffMatches(s: string, j: nat)
    requires j + 64 <= |s|
    ensures TxidStands(s, j) <==> TxidAt(s, j)
  {
    forall k | 0 <= k < |s|
      ensures IsHex(s[k]) <==> s[k] in "0123456789abcdef"
      ensures IsWord(s[k]) <==> WordCharacter(s[k])
    {
      CharacterClasses(s[k]);
      WordCharacters(s[k]);
    }
  }
}
