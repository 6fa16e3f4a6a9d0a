/** `parse_field_value` and the fixed pattern `DestAddress=(\d+)`: a leftmost search for a key
    followed by a greedy run of characters of one class. */
module FieldExtractor {
  import opened Wrappers
  import opened Text

  /** The two classes the parser captures: `[^)\s]` for field values and `\d` for addresses. */
  datatype CharClass = ValueChars | Digits

  predicate Accepts(cls: CharClass, c: char) {
    match cls
    case ValueChars => !IsSpace(c) && c != ')'
    case Digits => IsDigit(c)
  }

  /** The pattern `key(cls+)` matches at position `p`: `key` occurs there and at least one
      character of `cls` follows it. */
  predicate MatchAt(text: string, key: string, cls: CharClass, p: int) {
    0 <= p && p + |key| < |text| && text[p..p + |key|] == key && Accepts(cls, text[p + |key|])
  }

  /** `p` is where `re.search` reports the match: the leftmost position that matches. */
  predicate IsFirstMatch(text: string, key: string, cls: CharClass, p: int) {
    MatchAt(text, key, cls, p) && forall q :: 0 <= q < p ==> !MatchAt(text, key, cls, q)
  }

  /** The greedy run of `cls` characters starting at `i`. */
  function RunFrom(text: string, i: nat, cls: CharClass): (run: string)
    requires i <= |text|
    ensures i + |run| <= |text| && run == text[i..i + |run|]
    ensures forall c :: c in run ==> Accepts(cls, c)
    ensures i + |run| == |text| || !Accepts(cls, text[i + |run|])
    decreases |text| - i
  {
    if i < |text| && Accepts(cls, text[i]) then [text[i]] + RunFrom(text, i + 1, cls) else ""
  }

  /** The leftmost position at or after `p` where the pattern matches. */
  function FirstMatchFrom(text: string, key: string, cls: CharClass, p: nat): (r: Option<nat>)
    ensures r.Some? ==> p <= r.value && MatchAt(text, key, cls, r.value)
    ensures r.Some? ==> forall q :: p <= q < r.value ==> !MatchAt(text, key, cls, q)
    ensures r.None? ==> forall q :: p <= q ==> !MatchAt(text, key, cls, q)
    decreases |text| - p
  {
    if p + |key| >= |text| then None
    else if MatchAt(text, key, cls, p) then Some(p)
    else FirstMatchFrom(text, key, cls, p + 1)
  }

  /** Group 1 of `re.search(key + "(" + cls + "+)", text)`, or None when nothing matches. */
  function Capture(text: string, key: string, cls: CharClass): (r: Option<string>)
    ensures r.None? <==> forall p :: !MatchAt(text, key, cls, p)
    ensures r.Some? ==> exists p :: IsFirstMatch(text, key, cls, p) && r.value == RunFrom(text, p + |key|, cls)
  {
    var m := FirstMatchFrom(text, key, cls, 0);
    if m.None? then None
    else
      assert IsFirstMatch(text, key, cls, m.value);
      Some(RunFrom(text, m.value + |key|, cls))
  }

  /** `g` with at most one trailing comma removed. */
  predicate StripsOneComma(g: string, v: string) {
    if |g| > 0 && g[|g| - 1] == ',' then v == g[..|g| - 1] else v == g
  }

  /** `parse_field_value(line, name)`: the value after the first `name=` that is followed by a
      character other than whitespace and `)`, up to the next whitespace or `)`, without one
      trailing comma. There is no word boundary before `name`. */
  function ParseFieldValue(line: string, name: string): (r: Option<string>)
    ensures r.None? <==> forall p :: !MatchAt(line, name + "=", ValueChars, p)
    ensures r.Some? ==> forall c :: c in r.value ==> !IsSpace(c) && c != ')'
    ensures r.Some? ==> exists p :: IsFirstMatch(line, name + "=", ValueChars, p)
                           && StripsOneComma(RunFrom(line, p + |name| + 1, ValueChars), r.value)
    ensures r == Some("") ==> exists p :: IsFirstMatch(line, name + "=", ValueChars, p)
                                 && RunFrom(line, p + |name| + 1, ValueChars) == ","
  {
    var key := name + "=";
    var m := FirstMatchFrom(line, key, ValueChars, 0);
    if m.None? then None
    else
      var p := m.value;
      assert IsFirstMatch(line, key, ValueChars, p);
      var g := RunFrom(line, p + |key|, ValueChars);
      var v := if |g| > 0 && g[|g| - 1] == ',' then g[..|g| - 1] else g;
      assert StripsOneComma(g, v);
      assert forall c :: c in v ==> c in g;
      Some(v)
  }

  /** The digits captured by `re.search(r'DestAddress=(\d+)', line)`. */
  function DestAddress(line: string): (r: Option<string>)
    ensures r.None? <==> forall p :: !MatchAt(line, "DestAddress=", Digits, p)
    ensures r.Some? ==> |r.value| > 0 && AllDigits(r.value)
    ensures r.Some? ==> exists p :: IsFirstMatch(line, "DestAddress=", Digits, p)
                           && r.value == RunFrom(line, p + |"DestAddress="|, Digits)
  {
    var c := Capture(line, "DestAddress=", Digits);
    if c.Some? then
      assert forall i :: 0 <= i < |c.value| ==> c.value[i] in c.value;
      c
    else c
  }
}
