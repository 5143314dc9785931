/** Character classes as Python's `re` module applies them to a `str`, and the
    scans (`[0-9]+`, `\s*`) and the `$` anchor that the patterns are built from. */
module Chars {

  /** `[0-9]`: ASCII digits only, with or without IGNORECASE. */
  predicate IsDigit(c: char) {
    '0' <= c <= '9'
  }

  /** `[0-9]+` matched as a whole: a non-empty run of digits. */
  predicate IsDigits(s: string) {
    |s| > 0 && forall i | 0 <= i < |s| :: IsDigit(s[i])
  }

  /** `\s` in a `str` pattern: exactly the characters for which `str.isspace()` holds. */
  predicate IsSpace(c: char) {
    || ('\t' <= c <= '\r')
    || ('\U{1C}' <= c <= '\U{1F}')
    || c == ' ' || c == '\U{85}' || c == '\U{A0}' || c == '\U{1680}'
    || ('\U{2000}' <= c <= '\U{200A}')
    || c == '\U{2028}' || c == '\U{2029}' || c == '\U{202F}' || c == '\U{205F}' || c == '\U{3000}'
  }

  predicate AllSpace(s: string) {
    forall i | 0 <= i < |s| :: IsSpace(s[i])
  }

  predicate NoSpace(s: string) {
    forall i | 0 <= i < |s| :: !IsSpace(s[i])
  }

  predicate IsLower(l: char) {
    'a' <= l <= 'z'
  }

  /** Under IGNORECASE, Python compares the simple lower-case mapping of the input
      character, and adds the extra equivalences `i`/U+0131 and `s`/U+017F. So the
      pattern letter `l` also matches its capital, and `i` matches U+0130 and U+0131,
      `k` matches the Kelvin sign U+212A and `s` matches the long s U+017F. */
  predicate FoldsTo(c: char, l: char) {
    && IsLower(l)
    && (|| c == l
        || c as int + 32 == l as int
        || (l == 'i' && (c == '\U{130}' || c == '\U{131}'))
        || (l == 'k' && c == '\U{212A}')
        || (l == 's' && c == '\U{17F}'))
  }

  /** `[A-Za-z]` under IGNORECASE: every character that folds to an ASCII letter. */
  predicate IsLetter(c: char) {
    || ('a' <= c <= 'z') || ('A' <= c <= 'Z')
    || c == '\U{130}' || c == '\U{131}' || c == '\U{17F}' || c == '\U{212A}'
  }

  /** `[0-9A-Za-z]` under IGNORECASE. */
  predicate IsAlnum(c: char) {
    IsDigit(c) || IsLetter(c)
  }

  /** `[0-9A-Za-z-_]` under IGNORECASE. */
  predicate IsIdentChar(c: char) {
    IsAlnum(c) || c == '-' || c == '_'
  }

  lemma FoldsToLetter(c: char, l: char)
    requires FoldsTo(c, l)
    ensures IsLetter(c) && !IsSpace(c)
  {
  }

  /** No input character folds to two different pattern letters. */
  lemma FoldsToUnique(c: char, l1: char, l2: char)
    requires FoldsTo(c, l1) && FoldsTo(c, l2)
    ensures l1 == l2
  {
  }

  /** `$` without MULTILINE: the end of the text, or just before a final newline. */
  predicate AtEnd(s: string, p: nat) {
    p == |s| || (p + 1 == |s| && s[p] == '\n')
  }

  /** Length of the longest prefix of digits: what a greedy `[0-9]*` consumes. */
  function LeadingDigits(s: string): (n: nat)
    ensures n <= |s|
  {
    if s == [] || !IsDigit(s[0]) then 0 else 1 + LeadingDigits(s[1..])
  }

  /** The greedy scan stops at the first non-digit (kept out of the function's
      contract so that unfolding it stays cheap). */
  lemma {:induction false} LeadingDigitsRun(s: string)
    ensures forall i | 0 <= i < LeadingDigits(s) :: IsDigit(s[i])
    ensures LeadingDigits(s) < |s| ==> !IsDigit(s[LeadingDigits(s)])
  {
    if s != [] && IsDigit(s[0]) {
      LeadingDigitsRun(s[1..]);
      assert forall i | 1 <= i < |s| :: s[1..][i - 1] == s[i];
    }
  }

  /** Length of the longest prefix of whitespace: what the leading `^\s*` consumes. */
  function LeadingSpaces(s: string): (n: nat)
    ensures n <= |s|
    ensures AllSpace(s[..n])
    ensures n < |s| ==> !IsSpace(s[n])
  {
    if s == [] || !IsSpace(s[0]) then 0 else 1 + LeadingSpaces(s[1..])
  }

  /** Length of the longest suffix of whitespace: what the trailing `\s*$` consumes. */
  function TrailingSpaces(s: string): (n: nat)
    ensures n <= |s|
    ensures AllSpace(s[|s| - n..])
    ensures n < |s| ==> !IsSpace(s[|s| - n - 1])
  {
    if s == [] || !IsSpace(s[|s| - 1]) then 0 else 1 + TrailingSpaces(s[..|s| - 1])
  }

  /** The input without the whitespace the anchors `^\s*` and `\s*$` absorb. */
  function Strip(s: string): string {
    var u := s[LeadingSpaces(s)..];
    u[..|u| - TrailingSpaces(u)]
  }

  /** A greedy digit scan stops exactly at the end of a digit string. */
  lemma LeadingDigitsOf(d: string, rest: string)
    requires IsDigits(d)
    requires rest == [] || !IsDigit(rest[0])
    ensures LeadingDigits(d + rest) == |d|
  {
    var s := d + rest;
    assert forall i | 0 <= i < |d| :: s[i] == d[i];
    assert |d| < |s| ==> s[|d|] == rest[0];
    LeadingDigitsExact(s, |d|);
  }

  /** The whitespace `\s*$` absorbs after the stripped core. */
  function TrailOf(s: string): string {
    var u := s[LeadingSpaces(s)..];
    u[|u| - TrailingSpaces(u)..]
  }

  lemma Concat3(a: string, b: string, c: string)
    ensures a + b + c == a + (b + c)
  {
  }

  lemma Concat4(a: string, b: string, c: string, d: string)
    ensures a + b + c + d == a + (b + c + d)
  {
  }

  lemma Concat5(a: string, b: string, c: string, d: string, e: string)
    ensures a + b + c + d + e == a + (b + (c + d + e))
  {
  }

  lemma NoSpaceConcat(a: string, b: string)
    requires NoSpace(a) && NoSpace(b)
    ensures NoSpace(a + b)
  {
    assert forall i | 0 <= i < |a + b| :: (a + b)[i] == if i < |a| then a[i] else b[i - |a|];
  }

  /** A greedy digit scan stops at the first non-digit. */
  lemma LeadingDigitsExact(s: string, k: nat)
    requires k <= |s| && forall i | 0 <= i < k :: IsDigit(s[i])
    requires k < |s| ==> !IsDigit(s[k])
    ensures LeadingDigits(s) == k
  {
    LeadingDigitsRun(s);
  }

  /** Every string is its stripped core between two runs of whitespace. */
  lemma StripSplit(s: string)
    ensures AllSpace(s[..LeadingSpaces(s)]) && AllSpace(TrailOf(s))
    ensures s == s[..LeadingSpaces(s)] + Strip(s) + TrailOf(s)
  {
    SpaceEnds(s);
    StripJoin(s);
  }

  lemma SpaceEnds(s: string)
    ensures AllSpace(s[..LeadingSpaces(s)]) && AllSpace(TrailOf(s))
  {
    var u := s[LeadingSpaces(s)..];
    assert TrailOf(s) == u[|u| - TrailingSpaces(u)..];
  }

  lemma StripJoin(s: string)
    ensures s == s[..LeadingSpaces(s)] + Strip(s) + TrailOf(s)
  {
    var k := LeadingSpaces(s);
    Recombine(s, k, TrailingSpaces(s[k..]));
  }

  lemma Recombine(s: string, k: nat, m: nat)
    requires k <= |s| && m <= |s| - k
    ensures s == s[..k] + s[k..][..|s[k..]| - m] + s[k..][|s[k..]| - m..]
  {
    var u := s[k..];
    assert u == u[..|u| - m] + u[|u| - m..];
  }

  /** Stripping recovers a core that neither starts nor ends with whitespace. */
  lemma StripOf(lead: string, core: string, trail: string)
    requires AllSpace(lead) && AllSpace(trail)
    requires core != [] && !IsSpace(core[0]) && !IsSpace(core[|core| - 1])
    ensures Strip(lead + core + trail) == core
  {
    var s := lead + core + trail;
    assert forall i | 0 <= i < |lead| :: s[i] == lead[i];
    assert s[|lead|] == core[0];
    var k := LeadingSpaces(s);
    var u := s[k..];
    assert u == core + trail;
    assert forall i | 0 <= i < |trail| :: u[|core| + i] == trail[i];
    assert u[|core| - 1] == core[|core| - 1];
    var m := TrailingSpaces(u);
    assert u[..|u| - m] == core;
  }
}
