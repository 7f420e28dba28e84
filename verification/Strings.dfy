/** Trimming and searching of character strings, for any notion of blank character. */
module Strings {
  import opened Wrappers

  function TrimStart(s: string, blank: char -> bool): (r: string)
    ensures r != "" ==> !blank(r[0])
    ensures s != "" && !blank(s[0]) ==> r == s
  {
    if s != "" && blank(s[0]) then TrimStart(s[1..], blank) else s
  }

  function TrimEnd(s: string, blank: char -> bool): (r: string)
    ensures r <= s
    ensures r != "" ==> !blank(r[|r| - 1])
    ensures s != "" && !blank(s[|s| - 1]) ==> r == s
  {
    if s != "" && blank(s[|s| - 1]) then TrimEnd(s[..|s| - 1], blank) else s
  }

  function Trim(s: string, blank: char -> bool): string {
    TrimEnd(TrimStart(s, blank), blank)
  }

  predicate Trimmed(s: string, blank: char -> bool) {
    s == "" || (!blank(s[0]) && !blank(s[|s| - 1]))
  }

  /** Trimming reaches trimmed text, and leaves exactly trimmed text alone. */
  lemma TrimIsTrimmed(s: string, blank: char -> bool)
    ensures Trimmed(Trim(s, blank), blank)
    ensures Trim(s, blank) == s <==> Trimmed(s, blank)
  {
  }

  function IndexOf(s: string, c: char): (r: Option<nat>)
    ensures r.None? ==> c !in s
    ensures r.Some? ==> r.value < |s| && s[r.value] == c && c !in s[..r.value]
  {
    if s == "" then None
    else if s[0] == c then Some(0)
    else match IndexOf(s[1..], c)
      case None => None
      case Some(i) =>
        assert s[..i + 1] == [s[0]] + s[1..][..i];
        Some(i + 1)
  }

  function LastIndexOf(s: string, c: char): (r: Option<nat>)
    ensures r.None? ==> c !in s
    ensures r.Some? ==> r.value < |s| && s[r.value] == c && c !in s[r.value + 1..]
  {
    if s == "" then None
    else if s[|s| - 1] == c then Some(|s| - 1)
    else match LastIndexOf(s[..|s| - 1], c)
      case None => None
      case Some(i) =>
        assert s[i + 1..] == s[..|s| - 1][i + 1..] + [s[|s| - 1]];
        Some(i)
  }

  lemma FoundAt(a: string, c: char, b: string)
    ensures c !in a ==> IndexOf(a + [c] + b, c) == Some(|a|)
    ensures c !in b ==> LastIndexOf(a + [c] + b, c) == Some(|a|)
  {
    var s := a + [c] + b;
    assert s[|a|] == c;
    assert s[..|a|] == a && s[|a| + 1..] == b;
  }
}
