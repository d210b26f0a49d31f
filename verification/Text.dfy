/** Strings as Python and JavaScript treat them, as far as the pipeline depends on it. */
module Text {

  /** The characters that Python's `str.strip` and the `\s` of `re` treat as blank. */
  predicate IsSpace(c: char) {
    var n := c as int;
    || 0x09 <= n <= 0x0D
    || 0x1C <= n <= 0x20
    || n in {0x85, 0xA0, 0x1680, 0x2028, 0x2029, 0x202F, 0x205F, 0x3000}
    || 0x2000 <= n <= 0x200A
  }

  function LowerChar(c: char): char {
    if 'A' <= c <= 'Z' then (c as int + 32) as char else c
  }

  function Lower(s: string): string {
    if s == "" then "" else [LowerChar(s[0])] + Lower(s[1..])
  }

  /** The same letters, whatever their case. */
  predicate EqualFold(a: string, b: string) {
    |a| == |b| && forall i | 0 <= i < |a| :: a[i] == b[i] || OtherCase(a[i], b[i]) || OtherCase(b[i], a[i])
  }

  predicate OtherCase(big: char, small: char) {
    'A' <= big <= 'Z' && small as int - big as int == 'a' as int - 'A' as int
  }

  /** Comparing in lower case ignores the case of the letters A to Z, and nothing else. */
  lemma {:induction false} LowerEqualIff(a: string, b: string)
    ensures Lower(a) == Lower(b) <==> EqualFold(a, b)
  {
    if a != "" && b != "" {
      LowerEqualIff(a[1..], b[1..]);
      assert Lower(a)[1..] == Lower(a[1..]) && Lower(b)[1..] == Lower(b[1..]);
      if EqualFold(a[1..], b[1..]) && LowerChar(a[0]) == LowerChar(b[0]) {
        assert forall i | 0 < i < |a| :: a[i] == a[1..][i - 1] && b[i] == b[1..][i - 1];
      }
      if EqualFold(a, b) {
        assert forall i | 0 <= i < |a| - 1 :: a[1..][i] == a[i + 1] && b[1..][i] == b[i + 1];
      }
    }
  }

  function StripLeft(s: string): string {
    if s != "" && IsSpace(s[0]) then StripLeft(s[1..]) else s
  }

  function StripRight(s: string): string {
    if s != "" && IsSpace(s[|s| - 1]) then StripRight(s[..|s| - 1]) else s
  }

  function Strip(s: string): string {
    StripRight(StripLeft(s))
  }

  predicate AllSpace(s: string) {
    forall c | c in s :: IsSpace(c)
  }

  /** What is left has no blank at either end. */
  predicate Bare(s: string) {
    s == "" || (!IsSpace(s[0]) && !IsSpace(s[|s| - 1]))
  }

  lemma {:induction false} StripLeftIs(s: string) returns (before: string)
    ensures s == before + StripLeft(s) && AllSpace(before)
    ensures StripLeft(s) == "" || !IsSpace(StripLeft(s)[0])
  {
    before := "";
    if s != "" && IsSpace(s[0]) {
      var rest := StripLeftIs(s[1..]);
      before := [s[0]] + rest;
    }
  }

  lemma {:induction false} StripRightIs(s: string) returns (after: string)
    ensures s == StripRight(s) + after && AllSpace(after)
    ensures StripRight(s) == "" || (!IsSpace(StripRight(s)[|StripRight(s)| - 1]) && StripRight(s)[0] == s[0])
  {
    after := "";
    if s != "" && IsSpace(s[|s| - 1]) {
      var rest := StripRightIs(s[..|s| - 1]);
      after := rest + [s[|s| - 1]];
      assert s == s[..|s| - 1] + [s[|s| - 1]];
    }
  }

  /** Stripping takes the blanks at both ends away and nothing else. */
  lemma {:induction false} StripIs(s: string) returns (before: string, after: string)
    ensures s == before + Strip(s) + after && AllSpace(before) && AllSpace(after) && Bare(Strip(s))
  {
    before := StripLeftIs(s);
    after := StripRightIs(StripLeft(s));
  }

  /** The characters that JavaScript's `trim` removes. */
  predicate IsJsSpace(c: char) {
    var n := c as int;
    || 0x09 <= n <= 0x0D
    || n in {0x20, 0xA0, 0x1680, 0x2028, 0x2029, 0x202F, 0x205F, 0x3000, 0xFEFF}
    || 0x2000 <= n <= 0x200A
  }

  function Trim(s: string): string
    decreases |s|
  {
    if s != "" && IsJsSpace(s[0]) then Trim(s[1..])
    else if s != "" && IsJsSpace(s[|s| - 1]) then Trim(s[..|s| - 1])
    else s
  }

  /** `s.split(".")`: the parts between the dots, at least one of them. */
  function Split(s: string): (parts: seq<string>)
    ensures |parts| >= 1
    ensures |parts| == 1 <==> '.' !in s
    ensures |parts| == 1 ==> parts[0] == s
  {
    if s == "" then [""]
    else
      var rest := Split(s[1..]);
      if s[0] == '.' then [""] + rest else [[s[0]] + rest[0]] + rest[1..]
  }
}
