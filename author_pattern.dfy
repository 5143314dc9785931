/** `AUTHOR_PATTERN` of hatch_nodejs_version/metadata_source.py, matched with
    `re.match` and no flags:
    `^(?P<name>[^<(]+?)?[ \t]*(?:<(?P<email>[^>(]+?)>)?[ \t]*(?:\((?P<url>[^)]+?)\)|$)`. */
module AuthorPattern {
  import opened Wrappers
  import opened Chars

  /** `[ \t]` */
  predicate IsBlank(c: char) {
    c == ' ' || c == '\t'
  }

  /** `[^<(]`, the characters of the `name` group. */
  predicate IsNameChar(c: char) {
    c != '<' && c != '('
  }

  /** Where a greedy `[ \t]*` starting at `p` stops. */
  function Blanks(s: string, p: nat): (q: nat)
    requires p <= |s|
    ensures p <= q <= |s|
    ensures forall k | p <= k < q :: IsBlank(s[k])
    ensures q < |s| ==> !IsBlank(s[q])
    decreases |s| - p
  {
    if p < |s| && IsBlank(s[p]) then Blanks(s, p + 1) else p
  }

  /** The first position at or after `p` holding one of `stops` (or the end). */
  function FirstOf(s: string, p: nat, stops: set<char>): (q: nat)
    requires p <= |s|
    ensures p <= q <= |s|
    ensures forall k | p <= k < q :: s[k] !in stops
    ensures q < |s| ==> s[q] in stops
    decreases |s| - p
  {
    if p < |s| && s[p] !in stops then FirstOf(s, p + 1, stops) else p
  }

  lemma FirstOfAt(s: string, p: nat, q: nat, stops: set<char>)
    requires p <= q < |s| && s[q] in stops && forall k | p <= k < q :: s[k] !in stops
    ensures FirstOf(s, p, stops) == q
  {
  }

  /** `<(?P<email>[^>(]+?)>` at `p`: the position of the closing `>`. The lazy
      group can only stop at the first `>`, and fails at a `(` or the end. */
  function EmailAt(s: string, p: nat): Option<nat>
    requires p <= |s|
  {
    if p < |s| && s[p] == '<' then
      var q := FirstOf(s, p + 1, {'>', '('});
      if q < |s| && s[q] == '>' && q > p + 1 then Some(q) else None
    else None
  }

  /** `\((?P<url>[^)]+?)\)|$` at `p`. */
  predicate TailAt(s: string, p: nat)
    requires p <= |s|
  {
    || AtEnd(s, p)
    || (p < |s| && s[p] == '(' && var q := FirstOf(s, p + 1, {')'}); q < |s| && q > p + 1)
  }

  /** The pattern after the `name` group, from `p`, tried the way `re` does:
      blanks, the optional email, blanks, then the url or the end. Returns the
      `email` group. */
  function AfterName(s: string, p: nat): Option<Option<string>>
    requires p <= |s|
  {
    var p1 := Blanks(s, p);
    match EmailAt(s, p1)
    case Some(q) => if TailAt(s, Blanks(s, q + 1)) then Some(Some(s[p1 + 1..q])) else None
    case None => if TailAt(s, p1) then Some(None) else None
  }

  /** One way the pattern after the `name` group can match from `p`: the blanks
      end at `q1`, the optional email closes at `e`, the blanks end at `q2`. */
  ghost predicate RestPath(s: string, p: nat, q1: nat, e: Option<nat>, q2: nat) {
    && p <= q1 <= q2 <= |s|
    && (forall k | p <= k < q1 :: IsBlank(s[k]))
    && (match e
        case None => forall k | q1 <= k < q2 :: IsBlank(s[k])
        case Some(r) =>
          && q1 + 1 < r < q2 && s[q1] == '<' && s[r] == '>'
          && (forall k | q1 + 1 <= k < r :: s[k] != '>' && s[k] != '(')
          && forall k | r + 1 <= k < q2 :: IsBlank(s[k]))
    && TailAt(s, q2)
  }

  /** The email a path captures. */
  function PathEmail(s: string, q1: nat, e: Option<nat>): Option<string>
    requires e.Some? ==> q1 + 1 <= e.value <= |s|
  {
    if e.Some? then Some(s[q1 + 1..e.value]) else None
  }

  /** Blanks never satisfy the tail, so a path always takes every blank. */
  lemma BlankNotTail(s: string, p: nat)
    requires p < |s| && IsBlank(s[p])
    ensures !TailAt(s, p)
  {
  }

  /** `AfterName` succeeds exactly when some backtracking path does, and every
      path captures the email it returns: backtracking into the blanks or
      dropping the email never finds another match. */
  lemma AfterNameExact(s: string, p: nat, q1: nat, e: Option<nat>, q2: nat)
    requires p <= |s|
    ensures RestPath(s, p, q1, e, q2) ==> AfterName(s, p) == Some(PathEmail(s, q1, e))
  {
    if RestPath(s, p, q1, e, q2) {
      var b := Blanks(s, p);
      if q2 < |s| && IsBlank(s[q2]) {
        BlankNotTail(s, q2);
      }
      assert b >= q1;
      match e
      case None =>
        assert q2 == b;
      case Some(r) =>
        assert q1 == b;
        assert FirstOf(s, q1 + 1, {'>', '('}) == r;
        assert EmailAt(s, q1) == Some(r);
        assert Blanks(s, r + 1) == q2;
    }
  }

  lemma AfterNamePath(s: string, p: nat)
    requires p <= |s| && AfterName(s, p).Some?
    ensures exists q1, e, q2 :: RestPath(s, p, q1, e, q2) && AfterName(s, p) == Some(PathEmail(s, q1, e))
  {
    var p1 := Blanks(s, p);
    match EmailAt(s, p1)
    case Some(q) =>
      assert RestPath(s, p, p1, Some(q), Blanks(s, q + 1));
    case None =>
      assert RestPath(s, p, p1, None, p1);
  }

  /** The lazy `name` group tries lengths `l`, `l + 1`, ... up to `n` and keeps the
      first one after which the rest of the pattern matches. */
  function SearchName(s: string, l: nat, n: nat): (r: Option<(nat, Option<string>)>)
    requires 1 <= l && n <= |s|
    ensures r.Some? ==> l <= r.value.0 <= n && AfterName(s, r.value.0) == Some(r.value.1)
    ensures r.Some? ==> forall k | l <= k < r.value.0 :: AfterName(s, k).None?
    ensures r.None? ==> forall k | l <= k <= n :: AfterName(s, k).None?
    decreases n + 1 - l
  {
    if l > n then None
    else
      match AfterName(s, l)
      case Some(em) => Some((l, em))
      case None => SearchName(s, l + 1, n)
  }

  /** `re.match(AUTHOR_PATTERN, s)`: the `name` and `email` groups, or no match.
      The optional `name` group is tried before it is skipped. */
  function MatchAuthor(s: string): Option<(Option<string>, Option<string>)> {
    var n := FirstOf(s, 0, {'<', '('});
    match SearchName(s, 1, n)
    case Some((l, em)) => Some((Some(s[..l]), em))
    case None =>
      match AfterName(s, 0)
      case Some(em) => Some((None, em))
      case None => None
  }

  // ---------------------------------------------------------------------------
  // The `Name <email> (url)` form

  predicate AllBlank(s: string) {
    forall k | 0 <= k < |s| :: IsBlank(s[k])
  }

  /** What the `email` group can hold: `[^>(]+`. */
  predicate EmailOk(email: string) {
    email != [] && forall k | 0 <= k < |email| :: email[k] != '>' && email[k] != '('
  }

  /** What the `name` group can hold: `[^<(]+`. */
  predicate NameChars(name: string) {
    name != [] && forall k | 0 <= k < |name| :: IsNameChar(name[k])
  }

  lemma AfterNameEmail(s: string, p: nat)
    requires p <= |s|
    ensures AfterName(s, p).Some? && AfterName(s, p).value.Some? ==> EmailOk(AfterName(s, p).value.value)
  {
    var p1 := Blanks(s, p);
    if EmailAt(s, p1).Some? {
      var q := EmailAt(s, p1).value;
      var e := s[p1 + 1..q];
      assert forall k | 0 <= k < |e| :: e[k] == s[p1 + 1 + k];
    }
  }

  /** Whatever `MatchAuthor` returns is a prefix of the text made of name
      characters, and an email made of email characters. */
  lemma MatchAuthorGroups(s: string)
    ensures MatchAuthor(s).Some? && MatchAuthor(s).value.0.Some? ==>
      var name := MatchAuthor(s).value.0.value;
      NameChars(name) && |name| <= |s| && s[..|name|] == name
    ensures MatchAuthor(s).Some? && MatchAuthor(s).value.1.Some? ==> EmailOk(MatchAuthor(s).value.1.value)
  {
    var n := FirstOf(s, 0, {'<', '('});
    match SearchName(s, 1, n)
    case Some((l, em)) =>
      AfterNameEmail(s, l);
      var name := s[..l];
      assert forall k | 0 <= k < l :: name[k] == s[k];
    case None =>
      AfterNameEmail(s, 0);
  }

  /** A name the lazy group returns whole: no `<` or `(`, and not ending in a
      blank or a newline. */
  predicate NameOk(name: string) {
    && name != []
    && (forall k | 0 <= k < |name| :: IsNameChar(name[k]))
    && !IsBlank(name[|name| - 1]) && name[|name| - 1] != '\n'
  }

  /** `Name <email> (url)` with the blanks written out; email and url optional. */
  function AuthorText(name: string, sep1: string, email: Option<string>, sep2: string, url: Option<string>): string {
    name + sep1
    + (if email.Some? then "<" + email.value + ">" else "")
    + sep2
    + (if url.Some? then "(" + url.value + ")" else "")
  }

  /** A shorter name leaves a name character after the blanks, where neither `<`,
      `(` nor the end can follow. */
  lemma ShorterNameFails(s: string, name: string, l: nat)
    requires NameOk(name) && |name| <= |s| && s[..|name|] == name && 1 <= l < |name|
    ensures AfterName(s, l).None?
  {
    var b := Blanks(s, l);
    assert s[|name| - 1] == name[|name| - 1];
    assert s[b] == name[b];
  }

  /** When the rest of the pattern matches after the whole name, the lazy group
      stops exactly there. */
  lemma NameFound(s: string, name: string, em: Option<string>)
    requires NameOk(name) && |name| <= |s| && s[..|name|] == name
    requires AfterName(s, |name|) == Some(em)
    ensures MatchAuthor(s) == Some((Some(name), em))
  {
    var n := FirstOf(s, 0, {'<', '('});
    assert forall k | 0 <= k < |name| :: s[k] == name[k];
    forall l | 1 <= l < |name|
      ensures AfterName(s, l).None?
    {
      ShorterNameFails(s, name, l);
    }
  }

  /** `\((?P<url>[^)]+?)\)` followed by anything, or the end. */
  lemma UrlTail(s: string, d: nat, url: Option<string>, rest: string)
    requires d <= |s| && s[d..] == (if url.Some? then "(" + url.value + ")" else "") + rest
    requires url.Some? ==> url.value != [] && forall k | 0 <= k < |url.value| :: url.value[k] != ')'
    requires url.None? ==> rest == []
    ensures TailAt(s, d)
  {
    if url.Some? {
      var u := url.value;
      var t := s[d..];
      assert t[0] == '(' && t[|u| + 1] == ')';
      assert forall k | 1 <= k <= |u| :: t[k] == u[k - 1];
      assert forall k | d + 1 <= k < d + 1 + |u| :: s[k] == t[k - d];
      FirstOfAt(s, d + 1, d + 1 + |u|, {')'});
    }
  }

  /** The part after the name, located by positions: blanks on `[a, b)`, the
      optional `<email>` on `[b, c)`, blanks on `[c, d)`, and a tail at `d`. */
  lemma AfterNameAt(s: string, a: nat, b: nat, c: nat, d: nat, email: Option<string>)
    requires a <= b <= c <= d <= |s|
    requires (forall k | a <= k < b :: IsBlank(s[k])) && (forall k | c <= k < d :: IsBlank(s[k]))
    requires email.None? ==> b == c
    requires email.Some? ==> c == b + |email.value| + 2 && s[b..c] == "<" + email.value + ">"
    requires email.Some? ==> EmailOk(email.value)
    requires TailAt(s, d)
    ensures AfterName(s, a) == Some(email)
  {
    if email.Some? {
      EmailPath(s, a, b, email.value, d);
      AfterNameExact(s, a, b, Some(c - 1), d);
    } else {
      assert RestPath(s, a, d, None, d);
      AfterNameExact(s, a, d, None, d);
    }
  }

  /** `Name <email> (url)`, with any blanks between the parts and anything after
      a url, matches with exactly that name and email. */
  lemma AuthorForm(name: string, sep1: string, email: Option<string>, sep2: string, url: Option<string>, rest: string)
    requires NameOk(name) && AllBlank(sep1) && AllBlank(sep2)
    requires email.Some? ==> EmailOk(email.value)
    requires url.Some? ==> url.value != [] && forall k | 0 <= k < |url.value| :: url.value[k] != ')'
    requires url.None? ==> rest == []
    ensures MatchAuthor(AuthorText(name, sep1, email, sep2, url) + rest) == Some((Some(name), email))
  {
    var ep := if email.Some? then "<" + email.value + ">" else "";
    var tail := (if url.Some? then "(" + url.value + ")" else "") + rest;
    var s := AuthorText(name, sep1, email, sep2, url) + rest;
    assert s == name + sep1 + ep + sep2 + tail;
    AuthorParts(s, name, sep1, email, ep, sep2, url, tail, rest);
  }

  /** The positions-level half of `AuthorForm`, on the five parts of the string. */
  lemma AuthorParts(s: string, name: string, sep1: string, email: Option<string>, ep: string, sep2: string,
                    url: Option<string>, tail: string, rest: string)
    requires NameOk(name) && AllBlank(sep1) && AllBlank(sep2)
    requires email.Some? ==> EmailOk(email.value) && ep == "<" + email.value + ">"
    requires email.None? ==> ep == []
    requires url.Some? ==> url.value != [] && forall k | 0 <= k < |url.value| :: url.value[k] != ')'
    requires url.None? ==> rest == []
    requires tail == (if url.Some? then "(" + url.value + ")" else "") + rest
    requires s == name + sep1 + ep + sep2 + tail
    ensures MatchAuthor(s) == Some((Some(name), email))
  {
    var a := |name|;
    var b := a + |sep1|;
    var c := b + |ep|;
    var d := c + |sep2|;
    Pieces(s, name, sep1, ep, sep2, tail);
    assert TailAt(s, d) by {
      UrlTail(s, d, url, rest);
    }
    BlankRun(s, a, b, sep1);
    BlankRun(s, c, d, sep2);
    AfterNameAt(s, a, b, c, d, email);
    NameFound(s, name, email);
  }

  /** A blank part of `s`, seen position by position. */
  lemma BlankRun(s: string, i: nat, j: nat, blank: string)
    requires i <= j <= |s| && s[i..j] == blank && AllBlank(blank)
    ensures forall k | i <= k < j :: IsBlank(s[k])
  {
    assert forall k | i <= k < j :: s[k] == s[i..j][k - i];
  }

  /** The slices of a string made of five parts. */
  lemma Pieces(s: string, p: string, q: string, r: string, t: string, u: string)
    requires s == p + q + r + t + u
    ensures s[..|p|] == p
    ensures s[|p|..|p| + |q|] == q
    ensures s[|p| + |q|..|p| + |q| + |r|] == r
    ensures s[|p| + |q| + |r|..|p| + |q| + |r| + |t|] == t
    ensures s[|p| + |q| + |r| + |t|..] == u
  {
    assert s == (((p + q) + r) + t) + u;
  }

  lemma EmailPath(s: string, a: nat, b: nat, email: string, d: nat)
    requires a <= b && b + |email| + 2 <= d <= |s|
    requires (forall k | a <= k < b :: IsBlank(s[k])) && (forall k | b + |email| + 2 <= k < d :: IsBlank(s[k]))
    requires s[b..b + |email| + 2] == "<" + email + ">"
    requires EmailOk(email)
    requires TailAt(s, d)
    ensures RestPath(s, a, b, Some(b + |email| + 1), d)
    ensures PathEmail(s, b, Some(b + |email| + 1)) == Some(email)
  {
    var t := s[b..b + |email| + 2];
    assert forall k | b <= k < b + |email| + 2 :: s[k] == t[k - b];
    assert forall k | 1 <= k <= |email| :: t[k] == email[k - 1];
    assert t[0] == '<' && t[|email| + 1] == '>';
    assert s[b + 1..b + |email| + 1] == email;
  }

  /** An unclosed `<`: with no `>` after it, nothing matches (whether or not a
      `(` follows), and `_parse_person` raises. */
  lemma UnclosedEmail(prefix: string, tail: string)
    requires forall k | 0 <= k < |prefix| :: IsNameChar(prefix[k])
    requires forall k | 0 <= k < |tail| :: tail[k] != '>'
    ensures MatchAuthor(prefix + "<" + tail) == None
  {
    var s := prefix + "<" + tail;
    var m := |prefix|;
    assert forall k | 0 <= k < m :: s[k] == prefix[k];
    assert s[m] == '<';
    assert forall k | m < k < |s| :: s[k] == tail[k - m - 1];
    assert FirstOf(s, 0, {'<', '('}) == m;
    var q := FirstOf(s, m + 1, {'>', '('});
    assert q == |s| || s[q] == '(';
    forall l | 0 <= l <= m
      ensures AfterName(s, l).None?
    {
      var b := Blanks(s, l);
      assert b <= m;
    }
  }
}
