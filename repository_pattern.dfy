/** `REPOSITORY_PATTERN` and `REPOSITORY_TABLE` of
    hatch_nodejs_version/metadata_source.py: `^(?:(gist|bitbucket|gitlab|github):)?(.*?)$`,
    matched with `re.match` and no flags, so `.` stops at a newline and `$` also
    matches before a final newline. */
module RepositoryPattern {
  import opened Wrappers
  import opened Chars

  /** The alternatives of the prefix group, in the order `re` tries them. */
  const Kinds: seq<string> := ["gist", "bitbucket", "gitlab", "github"]

  /** `REPOSITORY_TABLE`: the host each shorthand prefix resolves against. */
  const Table: map<string, string> := map[
    "gitlab" := "https://gitlab.com",
    "github" := "https://github.com",
    "gist" := "https://gist.github.com",
    "bitbucket" := "https://bitbucket.org"
  ]

  /** The kind used when the text has no prefix. */
  const DefaultKind: string := "github"

  lemma KindsInTable()
    ensures forall k | k in Kinds :: k in Table
    ensures DefaultKind in Table
    ensures forall k | k in Table :: k in Kinds
  {
  }

  /** `(.*?)$` from `p`: the lazy group grows one non-newline character at a
      time until `$` holds. Returns where the group ends. */
  function LazyToEnd(s: string, p: nat): (q: Option<nat>)
    requires p <= |s|
    ensures q.Some? ==> p <= q.value <= |s| && AtEnd(s, q.value)
    ensures q.Some? ==> forall k | p <= k < q.value :: s[k] != '\n'
    decreases |s| - p
  {
    if AtEnd(s, p) then Some(p)
    else if p < |s| && s[p] != '\n' then LazyToEnd(s, p + 1)
    else None
  }

  predicate HasPrefix(s: string, kind: string) {
    |kind| + 1 <= |s| && s[..|kind|] == kind && s[|kind|] == ':'
  }

  /** The whole pattern, trying the prefix alternatives `kinds` in order and then
      skipping the optional group: the `kind` and `identifier` groups. */
  function MatchFrom(s: string, kinds: seq<string>): Option<(Option<string>, string)>
  {
    if kinds == [] then
      match LazyToEnd(s, 0)
      case Some(q) => Some((None, s[..q]))
      case None => None
    else if HasPrefix(s, kinds[0]) && LazyToEnd(s, |kinds[0]| + 1).Some? then
      Some((Some(kinds[0]), s[|kinds[0]| + 1..LazyToEnd(s, |kinds[0]| + 1).value]))
    else MatchFrom(s, kinds[1..])
  }

  /** `re.match(REPOSITORY_PATTERN, s).groups()`, or no match. */
  function MatchRepository(s: string): Option<(Option<string>, string)> {
    MatchFrom(s, Kinds)
  }

  /** The identifier the group captures: no newline, and the text ends right
      after it or after one final newline. */
  predicate IdentifierOf(s: string, p: nat, id: string)
    requires p <= |s|
  {
    && (forall k | 0 <= k < |id| :: id[k] != '\n')
    && (s[p..] == id || s[p..] == id + "\n")
  }

  lemma LazyToEndOf(s: string, p: nat)
    requires p <= |s|
    ensures LazyToEnd(s, p).Some? ==> IdentifierOf(s, p, s[p..LazyToEnd(s, p).value])
    ensures LazyToEnd(s, p).None? ==> exists k :: p <= k < |s| - 1 && s[k] == '\n'
    decreases |s| - p
  {
    if AtEnd(s, p) {
    } else if p < |s| && s[p] != '\n' {
      LazyToEndOf(s, p + 1);
      if LazyToEnd(s, p + 1).Some? {
        var q := LazyToEnd(s, p).value;
        assert s[p..q] == [s[p]] + s[p + 1..q];
        assert s[p..] == [s[p]] + s[p + 1..];
      }
    } else {
      assert p < |s| - 1 && s[p] == '\n';
    }
  }

  /** Text without a newline before its last character always reaches `$`. */
  lemma LazyToEndFinds(s: string, p: nat)
    requires p <= |s| && forall k | p <= k < |s| - 1 :: s[k] != '\n'
    ensures LazyToEnd(s, p).Some?
    decreases |s| - p
  {
    if !AtEnd(s, p) {
      LazyToEndFinds(s, p + 1);
    }
  }

  /** What a successful match says about the text: a table prefix and a colon,
      or none, then the identifier. */
  lemma {:induction false} MatchFromSound(s: string, kinds: seq<string>)
    ensures MatchFrom(s, kinds).Some? && MatchFrom(s, kinds).value.0.Some? ==>
      var (kind, id) := MatchFrom(s, kinds).value;
      kind.value in kinds && HasPrefix(s, kind.value) && IdentifierOf(s, |kind.value| + 1, id)
    ensures MatchFrom(s, kinds).Some? && MatchFrom(s, kinds).value.0.None? ==>
      IdentifierOf(s, 0, MatchFrom(s, kinds).value.1)
  {
    if kinds == [] {
      LazyToEndOf(s, 0);
    } else if HasPrefix(s, kinds[0]) && LazyToEnd(s, |kinds[0]| + 1).Some? {
      LazyToEndOf(s, |kinds[0]| + 1);
    } else {
      MatchFromSound(s, kinds[1..]);
    }
  }

  lemma MatchRepositorySound(s: string)
    ensures MatchRepository(s).Some? && MatchRepository(s).value.0.Some? ==>
      var (kind, id) := MatchRepository(s).value;
      kind.value in Table && HasPrefix(s, kind.value) && IdentifierOf(s, |kind.value| + 1, id)
    ensures MatchRepository(s).Some? && MatchRepository(s).value.0.None? ==>
      IdentifierOf(s, 0, MatchRepository(s).value.1)
  {
    MatchFromSound(s, Kinds);
  }

  /** A newline anywhere but at the very end makes the match fail, prefix or not. */
  lemma {:induction false} NewlineRejected(s: string, kinds: seq<string>, k: nat)
    requires k < |s| - 1 && s[k] == '\n'
    requires forall i | 0 <= i < |kinds| :: forall j | 0 <= j < |kinds[i]| :: kinds[i][j] != '\n'
    ensures MatchFrom(s, kinds) == None
  {
    if kinds != [] {
      NewlineRejected(s, kinds[1..], k);
    }
  }

  lemma RepositoryNewline(s: string, k: nat)
    requires k < |s| - 1 && s[k] == '\n'
    ensures MatchRepository(s) == None
  {
    NewlineRejected(s, Kinds, k);
  }

  /** The lazy group stops right after an identifier with no newline, when only
      an optional final newline follows it. */
  lemma {:induction false} LazyToEndAfter(s: string, p: nat, id: string, nl: string)
    requires p <= |s| && s[p..] == id + nl
    requires forall k | 0 <= k < |id| :: id[k] != '\n'
    requires nl == "" || nl == "\n"
    ensures LazyToEnd(s, p) == Some(p + |id|)
    decreases |id|
  {
    if id != [] {
      assert s[p] == id[0];
      assert s[p + 1..] == id[1..] + nl;
      LazyToEndAfter(s, p + 1, id[1..], nl);
    }
  }

  /** The four prefixes differ before either ends, so at most one of them can
      start the text. */
  lemma PrefixUnique(s: string, a: string, b: string)
    requires a in Table && b in Table && HasPrefix(s, a) && HasPrefix(s, b)
    ensures a == b
  {
    assert forall i | 0 <= i < |a| :: s[i] == a[i];
    assert forall i | 0 <= i < |b| :: s[i] == b[i];
  }

  /** The alternatives before the first one that matches are passed over. */
  lemma {:induction false} FirstPrefix(s: string, kinds: seq<string>, i: nat)
    requires i < |kinds| && forall j | 0 <= j < i :: !HasPrefix(s, kinds[j])
    ensures MatchFrom(s, kinds) == MatchFrom(s, kinds[i..])
  {
    if i > 0 {
      assert kinds[1..][i - 1..] == kinds[i..];
      FirstPrefix(s, kinds[1..], i - 1);
    }
  }

  /** `kind:identifier` with a table kind resolves to that kind. */
  lemma RepositoryPrefixed(kind: string, id: string, nl: string)
    requires kind in Table
    requires forall k | 0 <= k < |id| :: id[k] != '\n'
    requires nl == "" || nl == "\n"
    ensures MatchRepository(kind + ":" + id + nl) == Some((Some(kind), id))
  {
    var s := kind + ":" + id + nl;
    var p := |kind| + 1;
    assert HasPrefix(s, kind) by {
      assert s[..|kind|] == kind;
    }
    assert s[p..] == id + nl;
    LazyToEndAfter(s, p, id, nl);
    assert s[p..p + |id|] == id;
    KindsInTable();
    assert kind in Kinds;
    var i :| 0 <= i < |Kinds| && Kinds[i] == kind;
    forall j | 0 <= j < i
      ensures !HasPrefix(s, Kinds[j])
    {
      if HasPrefix(s, Kinds[j]) {
        PrefixUnique(s, Kinds[j], kind);
      }
    }
    FirstPrefix(s, Kinds, i);
  }

  /** Text that starts with no table prefix resolves as `github`, whole. */
  lemma RepositoryBare(id: string, nl: string)
    requires forall kind | kind in Table :: !HasPrefix(id + nl, kind)
    requires forall k | 0 <= k < |id| :: id[k] != '\n'
    requires nl == "" || nl == "\n"
    ensures MatchRepository(id + nl) == Some((None, id))
  {
    var s := id + nl;
    LazyToEndAfter(s, 0, id, nl);
    assert s[..|id|] == id;
    FirstPrefix(s, Kinds, 3);
    assert Kinds[3..][1..] == [];
  }

  /** The host `_parse_repository` joins the identifier onto. */
  function HostOf(kind: Option<string>): (host: string)
    requires kind.Some? ==> kind.value in Table
    ensures kind.None? ==> host == "https://github.com"
    ensures kind.Some? ==> host == Table[kind.value]
  {
    Table[kind.GetOr(DefaultKind)]
  }
}
