/** Character classes and the few Python string operations the parser relies on. */
module Text {
  /** The characters `\s` matches in a Python 3 str pattern (the Unicode whitespace set). */
  predicate IsSpace(c: char) {
    || c == ' '
    || '\t' <= c <= '\r'
    || '\U{1C}' <= c <= '\U{1F}'
    || c == '\U{85}' || c == '\U{A0}' || c == '\U{1680}'
    || '\U{2000}' <= c <= '\U{200A}'
    || c == '\U{2028}' || c == '\U{2029}' || c == '\U{202F}' || c == '\U{205F}' || c == '\U{3000}'
  }

  /** An ASCII decimal digit. */
  predicate IsDigit(c: char) {
    '0' <= c <= '9'
  }

  predicate AllDigits(s: string) {
    forall i :: 0 <= i < |s| ==> IsDigit(s[i])
  }

  function DigitValue(c: char): (d: nat)
    requires IsDigit(c)
    ensures d <= 9
  {
    (c as int) - ('0' as int)
  }

  /** Python's `line[:-1]`: the line without its last character ("" stays ""). */
  function DropLast(line: string): string {
    if |line| == 0 then "" else line[..|line| - 1]
  }

  /** The concatenation of a sequence of strings, in order. */
  function Concat(parts: seq<string>): string {
    if |parts| == 0 then "" else Concat(parts[..|parts| - 1]) + parts[|parts| - 1]
  }

  /** Python's `s.split(sep)` for a one-character separator: every occurrence splits,
      so adjacent separators give empty parts, and there is always at least one part. */
  function Split(s: string, sep: char): (parts: seq<string>)
    ensures |parts| >= 1
  {
    if |s| == 0 then [""]
    else
      var rest := Split(s[1..], sep);
      if s[0] == sep then [""] + rest else [[s[0]] + rest[0]] + rest[1..]
  }

  /** Python's `s.replace(pat, "")`: one left-to-right pass removing non-overlapping occurrences. */
  function RemoveAll(s: string, pat: string): (r: string)
    requires |pat| > 0
    ensures |r| <= |s|
    decreases |s|
  {
    if |s| < |pat| then s
    else if s[..|pat|] == pat then RemoveAll(s[|pat|..], pat)
    else [s[0]] + RemoveAll(s[1..], pat)
  }

  /** Removing a one-character pattern deletes every occurrence of that character and keeps
      every other character. */
  lemma {:induction false} RemoveCharFacts(s: string, c: char)
    ensures forall x :: x in RemoveAll(s, [c]) <==> x in s && x != c
    decreases |s|
  {
    if |s| >= 1 {
      RemoveCharFacts(s[1..], c);
      assert s == [s[0]] + s[1..];
      assert forall x :: x in s <==> x == s[0] || x in s[1..];
    }
  }

  /** The characters of `s` other than `c`, in order and with their multiplicities. */
  function Without(s: string, c: char): string {
    if |s| == 0 then "" else (if s[0] == c then "" else [s[0]]) + Without(s[1..], c)
  }

  /** Removing a one-character pattern is exactly the filter that drops that character: every
      other character is kept, in order and as often as it occurs. */
  lemma {:induction false} RemoveCharIsFilter(s: string, c: char)
    ensures RemoveAll(s, [c]) == Without(s, c)
    decreases |s|
  {
    if |s| >= 1 {
      RemoveCharIsFilter(s[1..], c);
    }
  }

  /** `"+1.5ns"` loses its sign and its unit. */
  lemma SignAndUnitRemoved()
    ensures RemoveAll(RemoveAll("+1.5ns", "+"), "ns") == "1.5"
  {
    assert RemoveAll("s", "+") == "s";
    assert RemoveAll("ns", "+") == "ns";
    assert RemoveAll("5ns", "+") == "5ns";
    assert RemoveAll(".5ns", "+") == ".5ns";
    assert RemoveAll("1.5ns", "+") == "1.5ns";
    assert RemoveAll("+1.5ns", "+") == "1.5ns";
    assert RemoveAll("ns", "ns") == "";
    assert RemoveAll("5ns", "ns") == "5";
    assert RemoveAll(".5ns", "ns") == ".5";
  }

  /** The pass is single: removing the middle `ns` of `"nnss"` leaves a new `ns` behind. */
  lemma SinglePass()
    ensures RemoveAll("nnss", "ns") == "ns"
  {
    assert RemoveAll("s", "ns") == "s";
    assert RemoveAll("nss", "ns") == "s";
  }
}
