/** Hand-written recognisers for the two anchored version patterns of
    hatch_nodejs_version/version_source.py, proved to accept exactly the texts of
    the declarative grammar and to capture exactly its groups. */
module VersionParse {
  import opened Wrappers
  import opened Chars
  import opened VersionGrammar

  /** Every word of a label table is a non-empty run of lower-case ASCII letters. */
  predicate LowerWords(labels: seq<string>) {
    forall i | 0 <= i < |labels| ::
      |labels[i]| > 0 && forall j | 0 <= j < |labels[i]| :: IsLower(labels[i][j])
  }

  lemma LabelTablesLower()
    ensures LowerWords(NodeLabels) && LowerWords(PythonLabels)
  {
  }

  /** `(?:\+(?P<build>...))?` and then the end of the stripped text. */
  function ParseBuildTail(r: string): (res: Option<Option<string>>)
    ensures res.Some? ==> BuildOk(res.value) && r == BuildText(res.value)
  {
    if r == [] then Some(None)
    else if r[0] == '+' && IsBuild(r[1..]) then
      assert r == "+" + r[1..];
      Some(Some(r[1..]))
    else None
  }

  /** The separator a greedy `[seps]?` consumes at the start of `x`. */
  function SkipSep(x: string, seps: set<char>): (sep: string)
    ensures IsSep(sep, seps) && sep <= x
  {
    if x != [] && x[0] in seps then x[..1] else []
  }

  /** `[seps]?(?P<pre_n>[0-9]+)?` and the build tail, right after a label:
      returns `pre_n` and the build group. */
  function ParseAfterLabel(x: string, seps: set<char>): (res: Option<(Option<string>, Option<string>)>)
    ensures res.Some? ==>
      && NumberOk(res.value.0) && BuildOk(res.value.1)
      && x == SkipSep(x, seps) + NumberText(res.value.0) + BuildText(res.value.1)
  {
    var y := x[|SkipSep(x, seps)|..];
    var n := LeadingDigits(y);
    match ParseBuildTail(y[n..])
    case None => None
    case Some(b) =>
      AfterLabelParts(x, SkipSep(x, seps), y, b);
      Some((if n == 0 then None else Some(y[..n]), b))
  }

  /** The text after a label is the separator, the digit run and the build tail. */
  lemma AfterLabelParts(x: string, sep: string, y: string, b: Option<string>)
    requires sep <= x && y == x[|sep|..]
    requires y[LeadingDigits(y)..] == BuildText(b)
    ensures var n := LeadingDigits(y);
      var number := if n == 0 then None else Some(y[..n]);
      NumberOk(number) && x == sep + NumberText(number) + BuildText(b)
  {
    var n := LeadingDigits(y);
    DigitRunOk(y);
    SplitAfter(x, sep, y, n);
    assert NumberText(if n == 0 then None else Some(y[..n])) == y[..n];
  }

  /** The digit run at the start of `y`, as an optional group, is well formed. */
  lemma DigitRunOk(y: string)
    ensures var n := LeadingDigits(y); NumberOk(if n == 0 then None else Some(y[..n]))
  {
    DigitPrefix(y);
  }

  /** `x` cut after a prefix `sep` and once more `n` characters later. */
  lemma SplitAfter(x: string, sep: string, y: string, n: nat)
    requires sep <= x && y == x[|sep|..] && n <= |y|
    ensures x == sep + y[..n] + y[n..]
  {
    assert x == sep + y;
    assert y == y[..n] + y[n..];
  }

  /** The `pre_l` alternation, each word followed by the rest of the pattern and
      tried in the table's order: as the regex backtracks, the first word under
      which the remainder of the text parses wins. */
  function MatchLabels(x: string, labels: seq<string>, seps: set<char>): (res: Option<(Prerelease, Option<string>)>)
    ensures res.Some? ==>
      var p := res.value.0;
      && (exists i | 0 <= i < |labels| :: MatchesCI(p.tag, labels[i]))
      && |p.tag| <= |x| && x[..|p.tag|] == p.tag
      && ParseAfterLabel(x[|p.tag|..], seps) == Some((p.number, res.value.1))
  {
    if labels == [] then None
    else
      var w := |labels[0]|;
      if w <= |x| && MatchesCI(x[..w], labels[0]) && ParseAfterLabel(x[w..], seps).Some? then
        var after := ParseAfterLabel(x[w..], seps).value;
        Some((Prerelease(x[..w], after.0), after.1))
      else
        var res := MatchLabels(x, labels[1..], seps);
        if res.Some? then
          var i :| 0 <= i < |labels[1..]| && MatchesCI(res.value.0.tag, labels[1..][i]);
          assert labels[1..][i] == labels[i + 1];
          res
        else res
  }

  /** `[0-9]+\.` at the start of `t`: the digits and what follows the dot. */
  function DigitsDot(t: string): Option<(string, string)> {
    var a := LeadingDigits(t);
    if a == 0 || a == |t| || t[a] != '.' then None else Some((t[..a], t[a + 1..]))
  }

  /** `major.minor.patch` at the start of `t`: the three groups and the rest
      (what they are is `ReleaseSound`). */
  function ParseRelease(t: string): Option<(string, string, string, string)> {
    match DigitsDot(t)
    case None => None
    case Some((major, t1)) =>
      match DigitsDot(t1)
      case None => None
      case Some((minor, t2)) =>
        var c := LeadingDigits(t2);
        if c == 0 then None else Some((major, minor, t2[..c], t2[c..]))
  }

  lemma DigitsDotSound(t: string)
    requires DigitsDot(t).Some?
    ensures IsDigits(DigitsDot(t).value.0) && t == DigitsDot(t).value.0 + "." + DigitsDot(t).value.1
  {
    var a := LeadingDigits(t);
    LeadingDigitsRun(t);
    assert t == t[..a] + [t[a]] + t[a + 1..];
  }

  lemma DigitsDotOf(d: string, rest: string)
    requires IsDigits(d)
    ensures DigitsDot(d + "." + rest) == Some((d, rest))
  {
    var t := d + "." + rest;
    assert forall i | 0 <= i < |d| :: t[i] == d[i];
    assert t[|d|] == '.';
    LeadingDigitsExact(t, |d|);
    assert t[..|d|] == d && t[|d| + 1..] == rest;
  }

  /** The groups `ParseRelease` returns are digit runs that, with the dots and the
      rest, make up `t`. */
  lemma ReleaseSound(t: string)
    requires ParseRelease(t).Some?
    ensures var (major, minor, patch, r) := ParseRelease(t).value;
            && IsDigits(major) && IsDigits(minor) && IsDigits(patch)
            && t == major + "." + minor + "." + patch + r
  {
    DigitsDotSound(t);
    var (major, t1) := DigitsDot(t).value;
    DigitsDotSound(t1);
    var (minor, t2) := DigitsDot(t1).value;
    var c := LeadingDigits(t2);
    DigitSplit(t2);
    Regroup(major, ".", minor, ".", t2[..c], t2[c..]);
  }

  /** The digit run at the start of `t` and what follows it. */
  lemma DigitSplit(t: string)
    ensures var c := LeadingDigits(t);
      (c > 0 ==> IsDigits(t[..c])) && t == t[..c] + t[c..]
  {
    DigitPrefix(t);
    CutAt(t, LeadingDigits(t));
  }

  lemma DigitPrefix(t: string)
    ensures var c := LeadingDigits(t); c > 0 ==> IsDigits(t[..c])
  {
    var c := LeadingDigits(t);
    LeadingDigitsRun(t);
    assert forall i | 0 <= i < c :: t[..c][i] == t[i];
  }

  lemma CutAt(t: string, c: nat)
    requires c <= |t|
    ensures t == t[..c] + t[c..]
  {
  }

  lemma Regroup(a: string, b: string, c: string, d: string, e: string, f: string)
    ensures a + b + (c + d + (e + f)) == a + b + c + d + e + f
  {
  }

  /** The part of NODE_VERSION_PATTERN after `patch`: the optional `pre` group,
      tried first, then the `build` group and the end of the stripped text. */
  function NodeTail(r: string): Option<(Option<Prerelease>, Option<string>)> {
    var withPre := if r != [] && r[0] == '-' then MatchLabels(r[1..], NodeLabels, NodeSeps) else None;
    if withPre.Some? then Some((Some(withPre.value.0), withPre.value.1))
    else
      match ParseBuildTail(r)
      case None => None
      case Some(b) => Some((None, b))
  }

  /** NODE_VERSION_PATTERN matched against the whole of the stripped text `t`. */
  function ParseNodeCore(t: string): Option<Version> {
    match ParseRelease(t)
    case None => None
    case Some((major, minor, patch, r)) =>
      match NodeTail(r)
      case None => None
      case Some((pre, b)) => Some(Version(major, minor, patch, pre, b))
  }

  /** The part of PYTHON_VERSION_PATTERN after `patch`: the optional `pre` group,
      tried first, then the `local` group and the end of the stripped text. */
  function PythonTail(r: string): Option<(Option<Prerelease>, Option<string>)> {
    var withPre := MatchLabels(r[|SkipSep(r, PythonSeps)|..], PythonLabels, PythonSeps);
    if withPre.Some? then Some((Some(withPre.value.0), withPre.value.1))
    else
      match ParseBuildTail(r)
      case None => None
      case Some(b) => Some((None, b))
  }

  /** PYTHON_VERSION_PATTERN matched against the whole of the stripped text `t`. */
  function ParsePythonCore(t: string): Option<Version> {
    var vee := if t != [] && (t[0] == 'v' || t[0] == 'V') then t[..1] else [];
    match ParseRelease(t[|vee|..])
    case None => None
    case Some((major, minor, patch, r)) =>
      match PythonTail(r)
      case None => None
      case Some((pre, b)) => Some(Version(major, minor, patch, pre, b))
  }

  /** `re.match(r"^\s*" + NODE_VERSION_PATTERN + r"\s*$", s, re.VERBOSE | re.IGNORECASE)`. */
  function ParseNode(s: string): Option<Version> {
    ParseNodeCore(Strip(s))
  }

  /** `re.match(r"^\s*" + PYTHON_VERSION_PATTERN + r"\s*$", s, re.VERBOSE | re.IGNORECASE)`. */
  function ParsePython(s: string): Option<Version> {
    ParsePythonCore(Strip(s))
  }

  // ---------------------------------------------------------------------------
  // Completeness of the pieces

  lemma BuildTailOf(b: Option<string>)
    requires BuildOk(b)
    ensures ParseBuildTail(BuildText(b)) == Some(b)
  {
    if b.Some? {
      assert BuildText(b)[1..] == b.value;
    }
  }

  lemma ReleaseOf(major: string, minor: string, patch: string, r: string)
    requires IsDigits(major) && IsDigits(minor) && IsDigits(patch)
    requires r == [] || !IsDigit(r[0])
    ensures ParseRelease(major + "." + minor + "." + patch + r) == Some((major, minor, patch, r))
  {
    var t2 := patch + r;
    var t1 := minor + "." + t2;
    assert major + "." + minor + "." + patch + r == major + "." + t1;
    DigitsDotOf(major, t1);
    DigitsDotOf(minor, t2);
    LeadingDigitsOf(patch, r);
    assert t2[..|patch|] == patch && t2[|patch|..] == r;
  }

  lemma AfterLabelOf(sep: string, n: Option<string>, b: Option<string>, seps: set<char>)
    requires seps <= PythonSeps && IsSep(sep, seps) && NumberOk(n) && BuildOk(b)
    ensures ParseAfterLabel(sep + NumberText(n) + BuildText(b), seps) == Some((n, b))
  {
    var nt, bt := NumberText(n), BuildText(b);
    var y := nt + bt;
    var x := sep + nt + bt;
    assert x == sep + y;
    assert y != [] ==> IsDigit(y[0]) || y[0] == '+';
    assert SkipSep(x, seps) == sep by {
      if sep != [] {
        assert x[0] == sep[0] && x[..1] == sep;
      }
    }
    assert x[|sep|..] == y;
    assert LeadingDigits(y) == |nt| by {
      if n.Some? {
        LeadingDigitsOf(nt, bt);
      }
    }
    assert y[|nt|..] == bt && y[..|nt|] == nt;
    BuildTailOf(b);
  }

  /** What follows a label in an accepted text never starts with a letter. */
  lemma AfterLabelStart(x: string, seps: set<char>)
    requires seps <= PythonSeps && ParseAfterLabel(x, seps).Some?
    ensures x == [] || !IsLetter(x[0])
  {
    var res := ParseAfterLabel(x, seps).value;
    var sep := SkipSep(x, seps);
    var nt, bt := NumberText(res.0), BuildText(res.1);
    assert x == sep + nt + bt;
    if sep != [] {
      assert x[0] == sep[0];
    } else if nt != [] {
      assert x[0] == nt[0];
    } else if bt != [] {
      assert x[0] == bt[0];
    }
  }

  lemma LowerWordsTail(labels: seq<string>)
    requires labels != [] && LowerWords(labels)
    ensures LowerWords(labels[1..])
  {
    assert forall i | 0 <= i < |labels| - 1 :: labels[1..][i] == labels[i + 1];
  }

  /** A text matching a word of lower-case letters is all letters. */
  lemma WordLetters(w: string, lit: string)
    requires MatchesCI(w, lit)
    ensures forall j | 0 <= j < |w| :: IsLetter(w[j])
  {
    forall j | 0 <= j < |w|
      ensures IsLetter(w[j])
    {
      FoldsToLetter(w[j], lit[j]);
    }
  }

  /** Two runs of letters at the start of `x`, each followed by a non-letter or
      the end, have the same length. */
  lemma WordLength(x: string, tag: string, rest: string, w: nat)
    requires x == tag + rest && w <= |x|
    requires (forall j | 0 <= j < |tag| :: IsLetter(tag[j])) && (rest == [] || !IsLetter(rest[0]))
    requires (forall j | 0 <= j < w :: IsLetter(x[..w][j])) && (x[w..] == [] || !IsLetter(x[w..][0]))
    ensures w == |tag|
  {
    assert forall j | 0 <= j < |tag| :: x[j] == tag[j];
    assert |tag| < |x| ==> x[|tag|] == rest[0];
    assert forall j | 0 <= j < w :: x[j] == x[..w][j];
    assert w < |x| ==> x[w] == x[w..][0];
    RunLength(x, |tag|, w);
  }

  /** A run of letters is as long as the letters at the start of `x`. */
  lemma RunLength(x: string, k1: nat, k2: nat)
    requires k1 <= |x| && k2 <= |x|
    requires (forall j | 0 <= j < k1 :: IsLetter(x[j])) && (k1 < |x| ==> !IsLetter(x[k1]))
    requires (forall j | 0 <= j < k2 :: IsLetter(x[j])) && (k2 < |x| ==> !IsLetter(x[k2]))
    ensures k1 == k2
  {
  }

  /** The ordered alternation finds the label of a well-formed text, whatever
      earlier words share a prefix with it. */
  lemma {:induction false} MatchLabelsOf(labels: seq<string>, seps: set<char>, tag: string, rest: string, n: Option<string>, b: Option<string>)
    requires LowerWords(labels) && seps <= PythonSeps
    requires exists i | 0 <= i < |labels| :: MatchesCI(tag, labels[i])
    requires ParseAfterLabel(rest, seps) == Some((n, b))
    ensures MatchLabels(tag + rest, labels, seps) == Some((Prerelease(tag, n), b))
  {
    var x := tag + rest;
    var i :| 0 <= i < |labels| && MatchesCI(tag, labels[i]);
    WordLetters(tag, labels[i]);
    AfterLabelStart(rest, seps);
    assert x[..|tag|] == tag && x[|tag|..] == rest;
    var w := |labels[0]|;
    assert i == 0 ==> w == |tag| && MatchesCI(x[..w], labels[0]);
    if w <= |x| && MatchesCI(x[..w], labels[0]) && ParseAfterLabel(x[w..], seps).Some? {
      AfterLabelStart(x[w..], seps);
      WordLetters(x[..w], labels[0]);
      WordLength(x, tag, rest, w);
    } else {
      assert i != 0;
      var others := labels[1..];
      assert others[i - 1] == labels[i] && MatchesCI(tag, others[i - 1]);
      LowerWordsTail(labels);
      MatchLabelsOf(others, seps, tag, rest, n, b);
    }
  }

  /** Labels are non-empty words, so the alternation fails on a text without a leading letter. */
  lemma MatchLabelsNeedsLetter(x: string, labels: seq<string>, seps: set<char>)
    requires LowerWords(labels)
    ensures MatchLabels(x, labels, seps).Some? ==> x != [] && IsLetter(x[0])
  {
    if MatchLabels(x, labels, seps).Some? {
      var p := MatchLabels(x, labels, seps).value.0;
      var i :| 0 <= i < |labels| && MatchesCI(p.tag, labels[i]);
      assert x[0] == p.tag[0];
      FoldsToLetter(p.tag[0], labels[i][0]);
    }
  }

  // ---------------------------------------------------------------------------
  // The anchored patterns: accepted texts and captured groups

  /** An accepted label is a run of letters, so it holds no whitespace. */
  lemma LabelNoSpace(l: string)
    requires IsLabel(l)
    ensures |l| > 0 && NoSpace(l)
  {
    LabelTablesLower();
    var i :| 0 <= i < |NodeLabels| && MatchesCI(l, NodeLabels[i]);
    forall j | 0 <= j < |l|
      ensures !IsSpace(l[j])
    {
      FoldsToLetter(l[j], NodeLabels[i][j]);
    }
  }

  /** The version pieces hold no whitespace, which is why the `\s*` padding can be stripped first. */
  lemma PiecesNoSpace(v: Version, sep: string, seps: set<char>)
    requires ReleaseOk(v) && BuildOk(v.build) && IsSep(sep, seps) && seps <= PythonSeps
    requires v.pre.Some? ==> IsLabel(v.pre.value.tag) && NumberOk(v.pre.value.number)
    ensures NoSpace(ReleaseText(v)) && NoSpace(BuildText(v.build)) && NoSpace(sep)
    ensures v.pre.Some? ==> NoSpace(v.pre.value.tag) && NoSpace(NumberText(v.pre.value.number))
  {
    NoSpaceConcat(v.major, ".");
    NoSpaceConcat(v.major + ".", v.minor);
    NoSpaceConcat(v.major + "." + v.minor, ".");
    NoSpaceConcat(v.major + "." + v.minor + ".", v.patch);
    if v.build.Some? {
      NoSpaceConcat("+", v.build.value);
    }
    if v.pre.Some? {
      LabelNoSpace(v.pre.value.tag);
    }
  }

  lemma NodeTextNoSpace(v: Version, sep: string)
    requires NodeSyntax(v, sep)
    ensures NodeText(v, sep) != [] && NoSpace(NodeText(v, sep))
  {
    PiecesNoSpace(v, sep, NodeSeps);
    var pre := "";
    if v.pre.Some? {
      var p := v.pre.value;
      NoSpaceConcat("-", p.tag);
      NoSpaceConcat("-" + p.tag, sep);
      NoSpaceConcat("-" + p.tag + sep, NumberText(p.number));
      pre := "-" + p.tag + sep + NumberText(p.number);
    }
    NoSpaceConcat(ReleaseText(v), pre);
    NoSpaceConcat(ReleaseText(v) + pre, BuildText(v.build));
    assert NodeText(v, sep) == ReleaseText(v) + pre + BuildText(v.build);
  }

  lemma PythonTextNoSpace(v: Version, vee: string, sep1: string, sep2: string)
    requires PythonSyntax(v, vee, sep1, sep2)
    ensures PythonText(v, vee, sep1, sep2) != [] && NoSpace(PythonText(v, vee, sep1, sep2))
  {
    PiecesNoSpace(v, sep1, PythonSeps);
    PiecesNoSpace(v, sep2, PythonSeps);
    var pre := "";
    if v.pre.Some? {
      var p := v.pre.value;
      NoSpaceConcat(sep1, p.tag);
      NoSpaceConcat(sep1 + p.tag, sep2);
      NoSpaceConcat(sep1 + p.tag + sep2, NumberText(p.number));
      pre := sep1 + p.tag + sep2 + NumberText(p.number);
    }
    NoSpaceConcat(vee, ReleaseText(v));
    NoSpaceConcat(vee + ReleaseText(v), pre);
    NoSpaceConcat(vee + ReleaseText(v) + pre, BuildText(v.build));
    assert PythonText(v, vee, sep1, sep2) == vee + ReleaseText(v) + pre + BuildText(v.build);
  }

  lemma NodeTailComplete(pre: Option<Prerelease>, b: Option<string>, sep: string)
    requires NodePreOk(pre, sep) && BuildOk(b)
    ensures var r := NodePreText(pre, sep) + BuildText(b);
            (r == [] || !IsDigit(r[0])) && NodeTail(r) == Some((pre, b))
  {
    LabelTablesLower();
    var bt := BuildText(b);
    var r := NodePreText(pre, sep) + bt;
    if pre.Some? {
      var p := pre.value;
      var rest := sep + NumberText(p.number) + bt;
      assert r == "-" + (p.tag + rest) by {
        Concat5("-", p.tag, sep, NumberText(p.number), bt);
      }
      assert r[1..] == p.tag + rest;
      AfterLabelOf(sep, p.number, b, NodeSeps);
      MatchLabelsOf(NodeLabels, NodeSeps, p.tag, rest, p.number, b);
    } else {
      assert r == bt;
      assert r != [] ==> r[0] == '+';
      BuildTailOf(b);
    }
  }

  /** What the alternation accepted: a word, a separator, a number and a build. */
  lemma LabelSplit(x: string, labels: seq<string>, seps: set<char>) returns (sep: string)
    requires MatchLabels(x, labels, seps).Some?
    ensures var (p, b) := MatchLabels(x, labels, seps).value;
            && IsSep(sep, seps) && NumberOk(p.number) && BuildOk(b)
            && x == p.tag + sep + NumberText(p.number) + BuildText(b)
  {
    var (p, b) := MatchLabels(x, labels, seps).value;
    var y := x[|p.tag|..];
    sep := SkipSep(y, seps);
    var nt, bt := NumberText(p.number), BuildText(b);
    assert y == sep + nt + bt;
    assert x == p.tag + y;
    Concat4(p.tag, sep, nt, bt);
  }

  lemma NodeTailSound(r: string) returns (sep: string)
    requires NodeTail(r).Some?
    ensures var (pre, b) := NodeTail(r).value;
            NodePreOk(pre, sep) && BuildOk(b) && r == NodePreText(pre, sep) + BuildText(b)
  {
    var (pre, b) := NodeTail(r).value;
    var withPre := if r != [] && r[0] == '-' then MatchLabels(r[1..], NodeLabels, NodeSeps) else None;
    if withPre.Some? {
      var p := withPre.value.0;
      sep := LabelSplit(r[1..], NodeLabels, NodeSeps);
      var nt, bt := NumberText(p.number), BuildText(b);
      assert r == "-" + r[1..];
      assert r == "-" + p.tag + sep + nt + bt by {
        Concat4(p.tag, sep, nt, bt);
        Concat5("-", p.tag, sep, nt, bt);
      }
    } else {
      sep := [];
      assert r == BuildText(b);
    }
  }

  lemma NodeCoreComplete(v: Version, sep: string)
    requires NodeSyntax(v, sep)
    ensures ParseNodeCore(NodeText(v, sep)) == Some(v)
  {
    var r := NodePreText(v.pre, sep) + BuildText(v.build);
    assert NodeText(v, sep) == v.major + "." + v.minor + "." + v.patch + r by {
      Concat3(ReleaseText(v), NodePreText(v.pre, sep), BuildText(v.build));
    }
    NodeTailComplete(v.pre, v.build, sep);
    ReleaseOf(v.major, v.minor, v.patch, r);
  }

  lemma NodeCoreSound(t: string) returns (sep: string)
    requires ParseNodeCore(t).Some?
    ensures NodeSyntax(ParseNodeCore(t).value, sep) && t == NodeText(ParseNodeCore(t).value, sep)
  {
    var v := ParseNodeCore(t).value;
    var (major, minor, patch, r) := ParseRelease(t).value;
    ReleaseSound(t);
    assert t == ReleaseText(v) + r;
    sep := NodeTailSound(r);
    Concat3(ReleaseText(v), NodePreText(v.pre, sep), BuildText(v.build));
  }

  lemma PythonTailComplete(pre: Option<Prerelease>, b: Option<string>, sep1: string, sep2: string)
    requires PythonPreOk(pre, sep1, sep2) && BuildOk(b)
    ensures var r := PythonPreText(pre, sep1, sep2) + BuildText(b);
            (r == [] || !IsDigit(r[0])) && PythonTail(r) == Some((pre, b))
  {
    LabelTablesLower();
    var bt := BuildText(b);
    if pre.Some? {
      PythonTailWithPre(pre.value, b, sep1, sep2);
    } else {
      assert PythonPreText(pre, sep1, sep2) + bt == bt;
      assert bt != [] ==> bt[0] == '+';
      MatchLabelsNeedsLetter(bt, PythonLabels, PythonSeps);
      assert MatchLabels(bt, PythonLabels, PythonSeps) == None;
      assert SkipSep(bt, PythonSeps) == [];
      BuildTailOf(b);
      assert PythonTail(bt) == Some((None, b));
    }
  }

  lemma PythonTailWithPre(p: Prerelease, b: Option<string>, sep1: string, sep2: string)
    requires PythonPreOk(Some(p), sep1, sep2) && BuildOk(b)
    ensures var r := PythonPreText(Some(p), sep1, sep2) + BuildText(b);
            (r == [] || !IsDigit(r[0])) && PythonTail(r) == Some((Some(p), b))
  {
    var bt := BuildText(b);
    var r := PythonPreText(Some(p), sep1, sep2) + bt;
    var rest := sep2 + NumberText(p.number) + bt;
    assert r == sep1 + (p.tag + rest) by {
      Concat5(sep1, p.tag, sep2, NumberText(p.number), bt);
    }
    SepThenLabel(sep1, p.tag, rest, r);
    assert MatchLabels(p.tag + rest, PythonLabels, PythonSeps) == Some((p, b)) by {
      LabelTablesLower();
      AfterLabelOf(sep2, p.number, b, PythonSeps);
      LabelTablesAgree(p.tag);
      MatchLabelsOf(PythonLabels, PythonSeps, p.tag, rest, p.number, b);
    }
  }

  /** A Python separator followed by a label: the separator is what `[-_.]?`
      consumes, and the text does not start with a digit. */
  lemma SepThenLabel(sep1: string, tag: string, rest: string, r: string)
    requires IsSep(sep1, PythonSeps) && IsLabel(tag) && r == sep1 + (tag + rest)
    ensures !IsDigit(r[0]) && SkipSep(r, PythonSeps) == sep1 && r[|sep1|..] == tag + rest
  {
    LabelNoSpace(tag);
    var i :| 0 <= i < |NodeLabels| && MatchesCI(tag, NodeLabels[i]);
    FoldsToLetter(tag[0], NodeLabels[i][0]);
    assert r[0] == if sep1 == [] then tag[0] else sep1[0];
    if sep1 != [] {
      assert r[..1] == sep1;
    }
  }

  lemma PythonTailSound(r: string) returns (sep1: string, sep2: string)
    requires PythonTail(r).Some?
    ensures var (pre, b) := PythonTail(r).value;
            PythonPreOk(pre, sep1, sep2) && BuildOk(b) && r == PythonPreText(pre, sep1, sep2) + BuildText(b)
  {
    var (pre, b) := PythonTail(r).value;
    var s1 := SkipSep(r, PythonSeps);
    var withPre := MatchLabels(r[|s1|..], PythonLabels, PythonSeps);
    if withPre.Some? {
      var p := withPre.value.0;
      sep1 := s1;
      sep2 := LabelSplit(r[|s1|..], PythonLabels, PythonSeps);
      var nt, bt := NumberText(p.number), BuildText(b);
      LabelTablesAgree(p.tag);
      assert r == sep1 + r[|s1|..];
      assert r == sep1 + p.tag + sep2 + nt + bt by {
        Concat4(p.tag, sep2, nt, bt);
        Concat5(sep1, p.tag, sep2, nt, bt);
      }
    } else {
      sep1, sep2 := [], [];
      assert r == BuildText(b);
    }
  }

  lemma PythonCoreComplete(v: Version, vee: string, sep1: string, sep2: string)
    requires PythonSyntax(v, vee, sep1, sep2)
    ensures ParsePythonCore(PythonText(v, vee, sep1, sep2)) == Some(v)
  {
    var t := PythonText(v, vee, sep1, sep2);
    var r := PythonPreText(v.pre, sep1, sep2) + BuildText(v.build);
    var u := v.major + "." + v.minor + "." + v.patch + r;
    assert t == vee + u by {
      Concat4(vee, ReleaseText(v), PythonPreText(v.pre, sep1, sep2), BuildText(v.build));
      Concat3(ReleaseText(v), PythonPreText(v.pre, sep1, sep2), BuildText(v.build));
    }
    assert t[0] == if vee == [] then v.major[0] else vee[0] by {
      assert u[0] == v.major[0];
    }
    assert (if t != [] && (t[0] == 'v' || t[0] == 'V') then t[..1] else []) == vee;
    assert t[|vee|..] == u;
    PythonTailComplete(v.pre, v.build, sep1, sep2);
    ReleaseOf(v.major, v.minor, v.patch, r);
  }

  lemma PythonCoreSound(t: string) returns (vee: string, sep1: string, sep2: string)
    requires ParsePythonCore(t).Some?
    ensures PythonSyntax(ParsePythonCore(t).value, vee, sep1, sep2)
    ensures t == PythonText(ParsePythonCore(t).value, vee, sep1, sep2)
  {
    var v := ParsePythonCore(t).value;
    vee := if t != [] && (t[0] == 'v' || t[0] == 'V') then t[..1] else [];
    var rest := t[|vee|..];
    var rel := ParseRelease(rest).value;
    var r := rel.3;
    assert PythonTail(r).Some? && v == Version(rel.0, rel.1, rel.2, PythonTail(r).value.0, PythonTail(r).value.1);
    ReleaseSound(rest);
    assert ReleaseOk(v) && rest == ReleaseText(v) + r;
    sep1, sep2 := PythonTailSound(r);
    assert PythonSyntax(v, vee, sep1, sep2);
    JoinParts(t, vee, ReleaseText(v), r, PythonPreText(v.pre, sep1, sep2), BuildText(v.build));
  }

  /** A text cut after its `v?` prefix, then after its release. */
  lemma JoinParts(t: string, vee: string, rel: string, r: string, pre: string, bt: string)
    requires |vee| <= |t| && vee == t[..|vee|] && t[|vee|..] == rel + r && r == pre + bt
    ensures t == vee + rel + pre + bt
  {
    assert t == vee + t[|vee|..];
    Concat3(rel, pre, bt);
    Concat4(vee, rel, pre, bt);
  }

  /** The Node parser succeeds with `v` exactly when the anchored, whitespace-padded
      NODE_VERSION_PATTERN matches and captures `v`. */
  lemma NodeParseCorrect(s: string, v: Version)
    ensures ParseNode(s) == Some(v) <==> NodeMatch(s, v)
  {
    if ParseNode(s) == Some(v) {
      var sep := NodeCoreSound(Strip(s));
      StripSplit(s);
      assert NodeSplit(s, v, s[..LeadingSpaces(s)], sep, TrailOf(s));
    }
    if NodeMatch(s, v) {
      var lead, sep, trail :| NodeSplit(s, v, lead, sep, trail);
      NodeTextNoSpace(v, sep);
      StripOf(lead, NodeText(v, sep), trail);
      NodeCoreComplete(v, sep);
    }
  }

  /** The Python parser succeeds with `v` exactly when the anchored, whitespace-padded
      PYTHON_VERSION_PATTERN matches and captures `v`. */
  lemma PythonParseCorrect(s: string, v: Version)
    ensures ParsePython(s) == Some(v) <==> PythonMatch(s, v)
  {
    if ParsePython(s) == Some(v) {
      var vee, sep1, sep2 := PythonCoreSound(Strip(s));
      StripSplit(s);
      assert PythonSplit(s, v, s[..LeadingSpaces(s)], vee, sep1, sep2, TrailOf(s));
    }
    if PythonMatch(s, v) {
      var lead, vee, sep1, sep2, trail :| PythonSplit(s, v, lead, vee, sep1, sep2, trail);
      PythonTextNoSpace(v, vee, sep1, sep2);
      StripOf(lead, PythonText(v, vee, sep1, sep2), trail);
      PythonCoreComplete(v, vee, sep1, sep2);
    }
  }

  // ---------------------------------------------------------------------------
  // What the tails reject

  /** In `x + tag + sep + n` (a dash or separator, a label, a separator, a number),
      no letter comes after a digit. */
  lemma NoLetterAfterDigit(x: string, tag: string, sep: string, n: string, i: nat, j: nat)
    requires forall k | 0 <= k < |x| :: !IsDigit(x[k])
    requires forall k | 0 <= k < |tag| :: IsLetter(tag[k])
    requires forall k | 0 <= k < |sep| :: !IsDigit(sep[k]) && !IsLetter(sep[k])
    requires forall k | 0 <= k < |n| :: IsDigit(n[k])
    requires i < j < |x + tag + sep + n| && IsDigit((x + tag + sep + n)[i])
    ensures !IsLetter((x + tag + sep + n)[j])
  {
    var p := x + tag + sep + n;
    var a, b, c := |x|, |x| + |tag|, |x| + |tag| + |sep|;
    assert forall k | 0 <= k < a :: p[k] == x[k];
    assert forall k | a <= k < b :: p[k] == tag[k - a];
    assert forall k | b <= k < c :: p[k] == sep[k - b];
    assert forall k | c <= k < |p| :: p[k] == n[k - c];
  }

  /** The characters of an accepted label are letters. */
  lemma LabelLetters(l: string)
    requires IsLabel(l)
    ensures forall k | 0 <= k < |l| :: IsLetter(l[k])
  {
    var i :| 0 <= i < |NodeLabels| && MatchesCI(l, NodeLabels[i]);
    forall k | 0 <= k < |l|
      ensures IsLetter(l[k])
    {
      FoldsToLetter(l[k], NodeLabels[i][k]);
    }
  }

  /** A prerelease part holds no `+`, and no letter follows a digit in it. */
  lemma PreShape(x: string, pre: Option<Prerelease>, sep: string, seps: set<char>, i: nat, j: nat)
    requires seps <= PythonSeps && IsSep(sep, seps) && (x == [] || (|x| == 1 && x[0] in PythonSeps))
    requires pre.Some? ==> IsLabel(pre.value.tag) && NumberOk(pre.value.number)
    requires var p := if pre.Some? then x + pre.value.tag + sep + NumberText(pre.value.number) else "";
             i < j < |p| && IsDigit(p[i])
    ensures var p := if pre.Some? then x + pre.value.tag + sep + NumberText(pre.value.number) else "";
            !IsLetter(p[j])
  {
    LabelLetters(pre.value.tag);
    NoLetterAfterDigit(x, pre.value.tag, sep, NumberText(pre.value.number), i, j);
  }

  lemma PreNoPlus(x: string, pre: Option<Prerelease>, sep: string, seps: set<char>)
    requires seps <= PythonSeps && IsSep(sep, seps) && (x == [] || (|x| == 1 && x[0] in PythonSeps))
    requires pre.Some? ==> IsLabel(pre.value.tag) && NumberOk(pre.value.number)
    ensures '+' !in (if pre.Some? then x + pre.value.tag + sep + NumberText(pre.value.number) else "")
  {
    if pre.Some? {
      var tag, n := pre.value.tag, NumberText(pre.value.number);
      LabelLetters(tag);
      assert '+' !in tag by {
        forall k | 0 <= k < |tag| ensures tag[k] != '+' { }
      }
      assert '+' !in n by {
        forall k | 0 <= k < |n| ensures n[k] != '+' { }
      }
      PlusFree(x, tag);
      PlusFree(x + tag, sep);
      PlusFree(x + tag + sep, n);
    }
  }

  lemma PlusFree(a: string, b: string)
    requires '+' !in a && '+' !in b
    ensures '+' !in a + b
  {
  }

  /** Where the build segment starts: everything before the first `+` is the
      prerelease part. */
  lemma SplitAtPlus(r: string, p: string, b: Option<string>, j: nat)
    requires r == p + BuildText(b) && '+' !in p
    requires j < |r| && forall k | 0 <= k <= j :: r[k] != '+'
    ensures j < |p| && r[..|p|] == p
  {
    if b.Some? {
      assert r[|p|] == '+';
    }
  }

  /** Once the prerelease number has started, no letter may come before the
      build segment: NODE_VERSION_PATTERN has no post- or dev-release part. */
  lemma NodeTailLetterAfterDigit(r: string, i: nat, j: nat)
    requires i < j < |r| && IsDigit(r[i]) && IsLetter(r[j])
    requires forall k | 0 <= k <= j :: r[k] != '+'
    ensures NodeTail(r) == None
  {
    if NodeTail(r).Some? {
      var sep := NodeTailSound(r);
      var (pre, b) := NodeTail(r).value;
      PreNoPlus("-", pre, sep, NodeSeps);
      SplitAtPlus(r, NodePreText(pre, sep), b, j);
      PreShape("-", pre, sep, NodeSeps, i, j);
    }
  }

  /** The same for PYTHON_VERSION_PATTERN. */
  lemma PythonTailLetterAfterDigit(r: string, i: nat, j: nat)
    requires i < j < |r| && IsDigit(r[i]) && IsLetter(r[j])
    requires forall k | 0 <= k <= j :: r[k] != '+'
    ensures PythonTail(r) == None
  {
    if PythonTail(r).Some? {
      var sep1, sep2 := PythonTailSound(r);
      var (pre, b) := PythonTail(r).value;
      PreNoPlus(sep1, pre, sep2, PythonSeps);
      SplitAtPlus(r, PythonPreText(pre, sep1, sep2), b, j);
      PreShape(sep1, pre, sep2, PythonSeps, i, j);
    }
  }

  /** NODE_VERSION_PATTERN needs a dash before the label: after the patch number
      only `-`, `+` or the end may come. */
  lemma NodeTailNeedsDash(r: string)
    requires r != [] && r[0] != '-' && r[0] != '+'
    ensures NodeTail(r) == None
  {
  }

  /** A prerelease part made of letters only is the label alone. */
  lemma LettersOnlyIsLabel(r: string, pre: Option<Prerelease>, sep1: string, sep2: string)
    requires PythonPreOk(pre, sep1, sep2) && r == PythonPreText(pre, sep1, sep2)
    requires r != [] && forall k | 0 <= k < |r| :: IsLetter(r[k])
    ensures pre.Some? && r == pre.value.tag
  {
    var p := pre.value;
    var nt := NumberText(p.number);
    assert r[0] !in PythonSeps && r[|r| - 1] !in PythonSeps && !IsDigit(r[|r| - 1]);
  }

  /** A tail made of letters only is accepted only when it is a whole label. */
  lemma PythonTailLettersOnly(r: string)
    requires r != [] && (forall k | 0 <= k < |r| :: IsLetter(r[k])) && !IsLabel(r)
    ensures PythonTail(r) == None
  {
    if PythonTail(r).Some? {
      var sep1, sep2 := PythonTailSound(r);
      var (pre, b) := PythonTail(r).value;
      var p := PythonPreText(pre, sep1, sep2);
      assert b.Some? ==> r[|p|] == '+';
      assert !IsLetter('+');
      assert r == PythonPreText(pre, sep1, sep2);
      LettersOnlyIsLabel(r, pre, sep1, sep2);
    }
  }
}
