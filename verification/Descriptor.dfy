/** Private-key descriptors of a wallet: taking one apart, and finding the concrete derivation steps
    its suffix stands for in an address's key path. Reading an extended key and reading one derivation
    step belong to a library; they are parameters here. */
module Descriptor {
  import opened Wrappers
  import opened Strings

  datatype ParseError = NoOpening | NoClosing | BadExpression | NoKey | BadKey

  datatype Parsed<K> = Parsed(kind: string, key: K, suffix: seq<string>)

  predicate IsWhite(c: char) {
    || '\t' <= c <= '\r' || c == ' ' || c == '\U{85}' || c == '\U{A0}' || c == '\U{1680}'
    || '\U{2000}' <= c <= '\U{200A}' || c == '\U{2028}' || c == '\U{2029}' || c == '\U{202F}'
    || c == '\U{205F}' || c == '\U{3000}'
  }

  /** White space is the Unicode property of that name. */
  lemma WhiteCharacters(c: char)
    ensures IsWhite(c) <==>
              c in "\t\n\U{0B}\U{0C}\r \U{85}\U{A0}\U{1680}\U{2000}\U{2001}\U{2002}\U{2003}\U{2004}\U{2005}\U{2006}\U{2007}\U{2008}\U{2009}\U{200A}\U{2028}\U{2029}\U{202F}\U{205F}\U{3000}"
  {
  }

  function BeforeFirst(s: string, c: char): string {
    match IndexOf(s, c)
    case None => s
    case Some(i) => s[..i]
  }

  function AfterLast(s: string, c: char): (r: string)
    ensures c !in r
  {
    match LastIndexOf(s, c)
    case None => s
    case Some(i) => s[i + 1..]
  }

  /** The non-empty pieces between separators. */
  function Segments(s: string, separator: char): (r: seq<string>)
    ensures forall i | 0 <= i < |r| :: r[i] != "" && separator !in r[i]
    decreases |s|
  {
    var first := BeforeFirst(s, separator);
    var rest := if |first| == |s| then [] else Segments(s[|first| + 1..], separator);
    if first == "" then rest else [first] + rest
  }

  /** The text before the first opening bracket and the text up to the last closing one. */
  function Bracketed(normalized: string): Result<(string, string), ParseError> {
    match IndexOf(normalized, '(')
    case None => Failure(NoOpening)
    case Some(open) =>
      match LastIndexOf(normalized, ')')
      case None => Failure(NoClosing)
      case Some(close) =>
        if close <= open then Failure(BadExpression)
        else Success((normalized[..open], normalized[open + 1..close]))
  }

  function ParsePrivateDescriptor<K>(readKey: string -> Option<K>, desc: string): Result<Parsed<K>, ParseError> {
    match Bracketed(Trim(BeforeFirst(desc, '#'), IsWhite))
    case Failure(error) => Failure(error)
    case Success((head, body)) => ParseParts(readKey, head, body)
  }

  function ParseParts<K>(readKey: string -> Option<K>, head: string, body: string): Result<Parsed<K>, ParseError> {
    var segments := Segments(AfterLast(Trim(body, IsWhite), ']'), '/');
    if segments == [] then Failure(NoKey)
    else
      match readKey(segments[0])
      case None => Failure(BadKey)
      case Some(key) => Success(Parsed(Trim(head, IsWhite), key, segments[1..]))
  }

  // ---------------------------------------------------------------- printing

  /** The parts of a written descriptor, kind([origin]key/suffix...)#checksum. */
  datatype Written = Written(kind: string, origin: Option<string>, key: string, suffix: seq<string>, checksum: Option<string>)

  function Joined(segments: seq<string>): string {
    if segments == [] then "" else "/" + segments[0] + Joined(segments[1..])
  }

  function Inner(w: Written): string {
    (if w.origin.Some? then "[" + w.origin.value + "]" else "") + (w.key + Joined(w.suffix))
  }

  function Body(w: Written): string {
    w.kind + "(" + (Inner(w) + ")")
  }

  function Text(w: Written): string {
    Body(w) + (if w.checksum.Some? then "#" + w.checksum.value else "")
  }

  predicate Plain(segment: string) {
    segment != "" && '/' !in segment && ']' !in segment
  }

  /** What the written parts must avoid for the brackets to mean what they should. */
  predicate WellWritten(w: Written) {
    && '(' !in w.kind && '#' !in w.kind && Trimmed(w.kind, IsWhite)
    && '#' !in Inner(w) && Trimmed(Inner(w), IsWhite)
    && Plain(w.key) && (forall i | 0 <= i < |w.suffix| :: Plain(w.suffix[i]))
  }

  lemma {:induction false} SegmentsJoined(first: string, rest: seq<string>)
    requires Plain(first) && forall i | 0 <= i < |rest| :: Plain(rest[i])
    ensures Segments(first + Joined(rest), '/') == [first] + rest
    decreases |rest|
  {
    if rest == [] {
      SegmentsOne(first);
      assert first + "" == first;
    } else {
      SegmentsJoined(rest[0], rest[1..]);
      SegmentsStep(first, rest[0], Joined(rest[1..]));
      assert [rest[0]] + rest[1..] == rest;
    }
  }

  lemma SegmentsOne(first: string)
    requires Plain(first)
    ensures Segments(first, '/') == [first]
  {
    assert IndexOf(first, '/').None?;
  }

  lemma {:induction false} JoinedHasNoBracket(segments: seq<string>)
    requires forall i | 0 <= i < |segments| :: Plain(segments[i])
    ensures ']' !in Joined(segments)
  {
    if segments != [] {
      JoinedHasNoBracket(segments[1..]);
    }
  }

  lemma SegmentsStep(first: string, second: string, more: string)
    requires Plain(first)
    ensures Segments(first + ("/" + second + more), '/') == [first] + Segments(second + more, '/')
  {
    var tail := second + more;
    var s := first + ("/" + second + more);
    assert s == first + ['/'] + tail;
    FoundAt(first, '/', tail);
    assert s[..|first|] == first && s[|first| + 1..] == tail;
  }

  lemma KeyExpression(w: Written)
    requires WellWritten(w)
    ensures Segments(AfterLast(Inner(w), ']'), '/') == [w.key] + w.suffix
  {
    SegmentsJoined(w.key, w.suffix);
    JoinedHasNoBracket(w.suffix);
    AfterOrigin(w.origin, w.key + Joined(w.suffix));
  }

  lemma AfterOrigin(origin: Option<string>, expr: string)
    requires ']' !in expr
    ensures AfterLast((if origin.Some? then "[" + origin.value + "]" else "") + expr, ']') == expr
  {
    if origin.Some? {
      var lead := "[" + origin.value;
      var inner := "[" + origin.value + "]" + expr;
      assert inner == lead + [']'] + expr;
      FoundAt(lead, ']', expr);
      assert inner[|lead| + 1..] == expr;
    } else {
      assert "" + expr == expr;
    }
  }

  lemma BeforeChecksum(w: Written)
    requires WellWritten(w)
    ensures BeforeFirst(Text(w), '#') == Body(w)
  {
    assert '#' !in Body(w);
    if w.checksum.Some? {
      assert Text(w) == Body(w) + ['#'] + w.checksum.value;
      FoundAt(Body(w), '#', w.checksum.value);
      assert Text(w)[..|Body(w)|] == Body(w);
    } else {
      assert Text(w) == Body(w);
      assert IndexOf(Body(w), '#').None?;
    }
  }

  lemma Brackets(kind: string, inner: string, body: string)
    requires '(' !in kind && Trimmed(kind, IsWhite) && body == kind + "(" + (inner + ")")
    ensures Trim(body, IsWhite) == body
    ensures Bracketed(body) == Success((kind, inner))
  {
    assert body == kind + ['('] + (inner + ")");
    FoundAt(kind, '(', inner + ")");
    assert body == (kind + "(" + inner) + [')'] + "";
    FoundAt(kind + "(" + inner, ')', "");
    assert body[0] == (if kind == "" then '(' else kind[0]);
    assert body[|body| - 1] == ')';
    TrimIsTrimmed(body, IsWhite);
    assert body[..|kind|] == kind && body[|kind| + 1..|kind| + 1 + |inner|] == inner;
  }

  /** A written descriptor is read back as its kind, its key and its suffix; the origin and the
      checksum play no part, and reading fails only when the key does not read. */
  lemma ReadsBack<K>(readKey: string -> Option<K>, w: Written)
    requires WellWritten(w)
    ensures ParsePrivateDescriptor(readKey, Text(w)) ==
      match readKey(w.key)
      case None => Failure(BadKey)
      case Some(key) => Success(Parsed(w.kind, key, w.suffix))
  {
    BeforeChecksum(w);
    Brackets(w.kind, Inner(w), Body(w));
    PartsReadBack(readKey, w);
  }

  lemma PartsReadBack<K>(readKey: string -> Option<K>, w: Written)
    requires WellWritten(w)
    ensures ParseParts(readKey, w.kind, Inner(w)) ==
      match readKey(w.key)
      case None => Failure(BadKey)
      case Some(key) => Success(Parsed(w.kind, key, w.suffix))
  {
    TrimIsTrimmed(w.kind, IsWhite);
    TrimIsTrimmed(Inner(w), IsWhite);
    KeyExpression(w);
    var segments := Segments(AfterLast(Inner(w), ']'), '/');
    assert segments[0] == w.key && segments[1..] == w.suffix;
  }

  // ---------------------------------------------------------------- what does not read

  /** The part of a descriptor before its checksum. */
  ghost predicate IsPayload(desc: string, d: string) {
    '#' !in d && (d == desc || d + "#" <= desc)
  }

  lemma PayloadIsBeforeFirst(desc: string, d: string)
    requires IsPayload(desc, d)
    ensures BeforeFirst(desc, '#') == d
  {
    if d == desc {
      assert IndexOf(desc, '#').None?;
    } else {
      var more := desc[|d| + 1..];
      assert desc == d + ['#'] + more;
      FoundAt(d, '#', more);
    }
  }

  /** The bracket errors, in terms of the descriptor's own text: no opening bracket, no closing one, or
      every closing one before every opening one. */
  lemma BracketErrors<K>(readKey: string -> Option<K>, desc: string, d: string)
    requires IsPayload(desc, d)
    ensures var r := ParsePrivateDescriptor(readKey, desc);
            && (r == Failure(NoOpening) <==> '(' !in d)
            && (r == Failure(NoClosing) <==> '(' in d && ')' !in d)
            && (r == Failure(BadExpression) <==>
                  '(' in d && ')' in d && forall i, j | 0 <= i < |d| && 0 <= j < |d| && d[i] == ')' && d[j] == '(' :: i < j)
  {
    PayloadIsBeforeFirst(desc, d);
    var lead, n, trail := Surroundings(d);
    Brackets3(lead, n, trail);
    BracketedErrors(n);
  }

  /** Trimmed text stands in the original between blanks. */
  lemma Surroundings(d: string) returns (lead: string, n: string, trail: string)
    ensures n == Trim(d, IsWhite) && d == lead + n + trail
    ensures (forall c | c in lead :: IsWhite(c)) && forall c | c in trail :: IsWhite(c)
  {
    var s := TrimStart(d, IsWhite);
    lead := LeadingBlanks(d);
    n := Trim(d, IsWhite);
    trail := TrailingBlanks(s);
  }

  lemma {:induction false} LeadingBlanks(s: string) returns (lead: string)
    ensures s == lead + TrimStart(s, IsWhite) && forall c | c in lead :: IsWhite(c)
  {
    if s != "" && IsWhite(s[0]) {
      var more := LeadingBlanks(s[1..]);
      lead := [s[0]] + more;
      assert s == [s[0]] + s[1..];
    } else {
      lead := "";
    }
  }

  lemma {:induction false} TrailingBlanks(s: string) returns (trail: string)
    ensures s == TrimEnd(s, IsWhite) + trail && forall c | c in trail :: IsWhite(c)
  {
    if s != "" && IsWhite(s[|s| - 1]) {
      var more := TrailingBlanks(s[..|s| - 1]);
      trail := more + [s[|s| - 1]];
      assert s == s[..|s| - 1] + [s[|s| - 1]];
    } else {
      trail := "";
    }
  }

  /** Blanks hold no brackets, so trimming moves them all alike. */
  lemma Brackets3(lead: string, n: string, trail: string)
    requires (forall c | c in lead :: IsWhite(c)) && forall c | c in trail :: IsWhite(c)
    ensures var d := lead + n + trail;
            && ('(' in d <==> '(' in n) && (')' in d <==> ')' in n)
            && (ClosedBeforeOpened(d) <==> ClosedBeforeOpened(n))
  {
    var d := lead + n + trail;
    var k := |lead|;
    assert forall i | 0 <= i < |n| :: d[k + i] == n[i];
    assert forall i | 0 <= i < k :: d[i] == lead[i] && lead[i] in lead;
    assert forall i | k + |n| <= i < |d| :: d[i] == trail[i - k - |n|] && trail[i - k - |n|] in trail;
    if ClosedBeforeOpened(d) {
      forall i, j | 0 <= i < |n| && 0 <= j < |n| && n[i] == ')' && n[j] == '('
        ensures i < j
      {
        assert d[k + i] == ')' && d[k + j] == '(';
      }
    }
    if ClosedBeforeOpened(n) {
      forall i, j | 0 <= i < |d| && 0 <= j < |d| && d[i] == ')' && d[j] == '('
        ensures i < j
      {
        assert n[i - k] == ')' && n[j - k] == '(';
      }
    }
  }

  predicate ClosedBeforeOpened(s: string) {
    forall i, j | 0 <= i < |s| && 0 <= j < |s| && s[i] == ')' && s[j] == '(' :: i < j
  }

  lemma BracketedErrors(n: string)
    ensures Bracketed(n) == Failure(NoOpening) <==> '(' !in n
    ensures Bracketed(n) == Failure(NoClosing) <==> '(' in n && ')' !in n
    ensures Bracketed(n) == Failure(BadExpression) <==> '(' in n && ')' in n && ClosedBeforeOpened(n)
  {
    if '(' in n && ')' in n {
      var open, close := IndexOf(n, '(').value, LastIndexOf(n, ')').value;
      assert forall j | 0 <= j < open :: n[..open][j] == n[j];
      assert forall i | close < i < |n| :: n[close + 1..][i - close - 1] == n[i];
    }
  }

  // ---------------------------------------------------------------- resolving

  /** A derivation step of BIP 32. */
  datatype Child = Normal(index: nat) | Hardened(index: nat)

  datatype ResolveError = PathTooShort | HardenedWildcard(at: nat) | BadSegment(at: nat) | Mismatch(at: nat)

  /** What is wrong with one suffix segment against the actual step, if anything. */
  function Fault(readChild: string -> Option<Child>, segment: string, actual: Child, at: nat): Option<ResolveError> {
    if segment == "*" then (if actual.Hardened? then Some(HardenedWildcard(at)) else None)
    else
      match readChild(segment)
      case None => Some(BadSegment(at))
      case Some(expected) => if expected != actual then Some(Mismatch(at)) else None
  }

  /** The first fault from a position on. */
  function FirstFault(readChild: string -> Option<Child>, suffix: seq<string>, tail: seq<Child>, from: nat): (r: Option<ResolveError>)
    requires |suffix| == |tail| && from <= |suffix|
    ensures r.None? <==> forall i | from <= i < |suffix| :: Fault(readChild, suffix[i], tail[i], i).None?
    decreases |suffix| - from
  {
    if from == |suffix| then None
    else
      var here := Fault(readChild, suffix[from], tail[from], from);
      if here.Some? then here else FirstFault(readChild, suffix, tail, from + 1)
  }

  function Resolved(readChild: string -> Option<Child>, suffix: seq<string>, path: seq<Child>): Result<seq<Child>, ResolveError> {
    if suffix == [] then Success([])
    else if |path| < |suffix| then Failure(PathTooShort)
    else
      var tail := path[|path| - |suffix|..];
      match FirstFault(readChild, suffix, tail, 0)
      case Some(fault) => Failure(fault)
      case None => Success(tail)
  }

  method ResolveDescriptorChildPath(readChild: string -> Option<Child>, suffix: seq<string>, path: seq<Child>)
    returns (r: Result<seq<Child>, ResolveError>)
    ensures r == Resolved(readChild, suffix, path)
  {
    if suffix == [] {
      return Success([]);
    }
    if |path| < |suffix| {
      return Failure(PathTooShort);
    }
    var tail := path[|path| - |suffix|..];
    var childPath := [];
    var i := 0;
    while i < |suffix|
      invariant 0 <= i <= |suffix|
      invariant childPath == tail[..i]
      invariant FirstFault(readChild, suffix, tail, 0) == FirstFault(readChild, suffix, tail, i)
    {
      var segment, actual := suffix[i], tail[i];
      if segment == "*" {
        if actual.Hardened? {
          return Failure(HardenedWildcard(i));
        }
        childPath := childPath + [actual];
      } else {
        var expected := readChild(segment);
        if expected.None? {
          return Failure(BadSegment(i));
        }
        if expected.value != actual {
          return Failure(Mismatch(i));
        }
        childPath := childPath + [expected.value];
      }
      i := i + 1;
    }
    assert tail[..i] == tail;
    r := Success(childPath);
  }

  /** A segment stands for a step: a wildcard for every step that is not hardened, other text for the
      step it reads as. */
  predicate StandsFor(readChild: string -> Option<Child>, segment: string, child: Child) {
    if segment == "*" then child.Normal? else readChild(segment) == Some(child)
  }

  /** Resolution succeeds exactly when the path ends in an instance of the suffix, and then returns
      that instance. */
  lemma ResolvesIff(readChild: string -> Option<Child>, suffix: seq<string>, prefix: seq<Child>, tail: seq<Child>)
    requires |tail| == |suffix|
    ensures Resolved(readChild, suffix, prefix + tail) == Success(tail)
      <==> forall i | 0 <= i < |suffix| :: StandsFor(readChild, suffix[i], tail[i])
    ensures Resolved(readChild, suffix, prefix + tail).Success? ==>
      Resolved(readChild, suffix, prefix + tail) == Success(tail)
  {
    var path := prefix + tail;
    assert path[|path| - |suffix|..] == tail;
    forall i | 0 <= i < |suffix|
      ensures Fault(readChild, suffix[i], tail[i], i).None? <==> StandsFor(readChild, suffix[i], tail[i])
    {
    }
  }

  /** A path that is too short never resolves, whatever the suffix says. */
  lemma ShortPathFails(readChild: string -> Option<Child>, suffix: seq<string>, path: seq<Child>)
    ensures Resolved(readChild, suffix, path) == Failure(PathTooShort) <==> |path| < |suffix|
  {
    if |path| >= |suffix| && suffix != [] {
      FaultIsLocated(readChild, suffix, path[|path| - |suffix|..], 0);
    }
  }

  /** The reported position is that of the first segment that does not stand for its step. */
  lemma {:induction false} FaultIsLocated(readChild: string -> Option<Child>, suffix: seq<string>, tail: seq<Child>, from: nat)
    requires |suffix| == |tail| && from <= |suffix|
    ensures var r := FirstFault(readChild, suffix, tail, from);
      r.Some? ==>
        && !r.value.PathTooShort?
        && from <= r.value.at < |suffix| && !StandsFor(readChild, suffix[r.value.at], tail[r.value.at])
        && (r.value.HardenedWildcard? <==> suffix[r.value.at] == "*" && tail[r.value.at].Hardened?)
        && (r.value.BadSegment? <==> suffix[r.value.at] != "*" && readChild(suffix[r.value.at]).None?)
        && (r.value.Mismatch? <==> suffix[r.value.at] != "*" && readChild(suffix[r.value.at]).Some?
                                   && readChild(suffix[r.value.at]).value != tail[r.value.at])
        && forall i | from <= i < r.value.at :: StandsFor(readChild, suffix[i], tail[i])
    decreases |suffix| - from
  {
    if from < |suffix| && Fault(readChild, suffix[from], tail[from], from).None? {
      FaultIsLocated(readChild, suffix, tail, from + 1);
    }
  }

  /** From the text of a descriptor and the key path of an address: parsing and then resolving gives
      the steps after the origin exactly when they are an instance of the printed suffix. */
  lemma DescriptorInstantiation<K>(readKey: string -> Option<K>, readChild: string -> Option<Child>,
                                   w: Written, prefix: seq<Child>, tail: seq<Child>)
    requires WellWritten(w) && readKey(w.key).Some? && |tail| == |w.suffix|
    ensures var parsed := ParsePrivateDescriptor(readKey, Text(w));
      && parsed.Success? && readKey(w.key) == Some(parsed.value.key) && parsed.value.kind == w.kind
      && (Resolved(readChild, parsed.value.suffix, prefix + tail) == Success(tail)
          <==> forall i | 0 <= i < |w.suffix| :: StandsFor(readChild, w.suffix[i], tail[i]))
  {
    ReadsBack(readKey, w);
    ResolvesIff(readChild, w.suffix, prefix, tail);
  }
}
