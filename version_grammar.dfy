/** The two version grammars of hatch_nodejs_version/version_source.py, stated
    declaratively: the record a match captures, and the exact text that
    `NODE_VERSION_PATTERN` and `PYTHON_VERSION_PATTERN` (both anchored, padded by
    `\s*` and matched case-insensitively) accept for that record. */
module VersionGrammar {
  import opened Wrappers
  import opened Chars

  /** The `pre_l` group (the label, as `tag`) and the `pre_n` group, copied as matched text. */
  datatype Prerelease = Prerelease(tag: string, number: Option<string>)

  /** The groups a successful match captures: `major`, `minor`, `patch`, the
      optional `pre` group and the `build` (Node) or `local` (Python) group. */
  datatype Version = Version(
    major: string,
    minor: string,
    patch: string,
    pre: Option<Prerelease>,
    build: Option<string>)

  /** The `pre_l` alternation of NODE_VERSION_PATTERN, in the order it is tried. */
  const NodeLabels: seq<string> := ["a", "b", "c", "rc", "alpha", "beta", "pre", "preview"]

  /** The `pre_l` alternation of PYTHON_VERSION_PATTERN, in the order it is tried. */
  const PythonLabels: seq<string> := ["alpha", "beta", "preview", "a", "b", "c", "rc", "pre"]

  /** `[-\.]`, the separators Node allows between label and number. */
  const NodeSeps: set<char> := {'-', '.'}

  /** `[-_\.]`, the separators Python allows around the label. */
  const PythonSeps: set<char> := {'-', '_', '.'}

  /** `s` matches the pattern literal `lit` under IGNORECASE. */
  predicate MatchesCI(s: string, lit: string) {
    |s| == |lit| && forall i | 0 <= i < |s| :: FoldsTo(s[i], lit[i])
  }

  /** A prerelease label both patterns accept (the two alternations hold the same words). */
  predicate IsLabel(l: string) {
    exists i | 0 <= i < |NodeLabels| :: MatchesCI(l, NodeLabels[i])
  }

  /** The `build`/`local` group: a first character in `[0-9A-Za-z]`, then
      `[0-9A-Za-z-_]` characters and dots, where the dots cut the text into
      non-empty segments and, once there is a dot, the text ends in `[0-9A-Za-z]`. */
  predicate IsBuild(b: string) {
    && |b| > 0 && IsAlnum(b[0])
    && (forall i | 0 <= i < |b| :: IsIdentChar(b[i]) || b[i] == '.')
    && (forall i | 0 <= i < |b| - 1 :: b[i] == '.' ==> b[i + 1] != '.')
    && ('.' in b ==> IsAlnum(b[|b| - 1]))
  }

  /** An optional separator: nothing, or one character of `seps`. */
  predicate IsSep(sep: string, seps: set<char>) {
    sep == [] || (|sep| == 1 && sep[0] in seps)
  }

  predicate ReleaseOk(v: Version) {
    IsDigits(v.major) && IsDigits(v.minor) && IsDigits(v.patch)
  }

  predicate NumberOk(n: Option<string>) {
    n.Some? ==> IsDigits(n.value)
  }

  predicate BuildOk(b: Option<string>) {
    b.Some? ==> IsBuild(b.value)
  }

  function NumberText(n: Option<string>): string {
    if n.Some? then n.value else ""
  }

  function BuildText(b: Option<string>): string {
    if b.Some? then "+" + b.value else ""
  }

  function ReleaseText(v: Version): string {
    v.major + "." + v.minor + "." + v.patch
  }

  /** What the optional `pre` group of NODE_VERSION_PATTERN matches when `[-\.]?`
      matched `sep`. */
  function NodePreText(pre: Option<Prerelease>, sep: string): string {
    if pre.Some? then "-" + pre.value.tag + sep + NumberText(pre.value.number) else ""
  }

  /** What NODE_VERSION_PATTERN matches for `v` when `[-\.]?` matched `sep`. */
  function NodeText(v: Version, sep: string): string {
    ReleaseText(v) + NodePreText(v.pre, sep) + BuildText(v.build)
  }

  /** What the optional `pre` group of PYTHON_VERSION_PATTERN matches when the two
      `[-_\.]?` matched `sep1` and `sep2`. */
  function PythonPreText(pre: Option<Prerelease>, sep1: string, sep2: string): string {
    if pre.Some? then sep1 + pre.value.tag + sep2 + NumberText(pre.value.number) else ""
  }

  /** What PYTHON_VERSION_PATTERN matches for `v` when `v?` matched `vee` and the
      two `[-_\.]?` matched `sep1` and `sep2`. */
  function PythonText(v: Version, vee: string, sep1: string, sep2: string): string {
    vee + ReleaseText(v) + PythonPreText(v.pre, sep1, sep2) + BuildText(v.build)
  }

  predicate NodePreOk(pre: Option<Prerelease>, sep: string) {
    if pre.Some? then IsLabel(pre.value.tag) && NumberOk(pre.value.number) && IsSep(sep, NodeSeps)
    else sep == []
  }

  predicate NodeSyntax(v: Version, sep: string) {
    ReleaseOk(v) && BuildOk(v.build) && NodePreOk(v.pre, sep)
  }

  predicate PythonPreOk(pre: Option<Prerelease>, sep1: string, sep2: string) {
    if pre.Some? then
      && IsLabel(pre.value.tag) && NumberOk(pre.value.number)
      && IsSep(sep1, PythonSeps) && IsSep(sep2, PythonSeps)
    else sep1 == [] && sep2 == []
  }

  predicate PythonSyntax(v: Version, vee: string, sep1: string, sep2: string) {
    && (vee == [] || vee == "v" || vee == "V")
    && ReleaseOk(v) && BuildOk(v.build) && PythonPreOk(v.pre, sep1, sep2)
  }

  /** `s` is whitespace, a Node version text for `v`, and whitespace. */
  predicate NodeSplit(s: string, v: Version, lead: string, sep: string, trail: string) {
    AllSpace(lead) && AllSpace(trail) && NodeSyntax(v, sep) && s == lead + NodeText(v, sep) + trail
  }

  predicate PythonSplit(s: string, v: Version, lead: string, vee: string, sep1: string, sep2: string, trail: string) {
    && AllSpace(lead) && AllSpace(trail) && PythonSyntax(v, vee, sep1, sep2)
    && s == lead + PythonText(v, vee, sep1, sep2) + trail
  }

  /** `re.match(r"^\s*" + NODE_VERSION_PATTERN + r"\s*$", s, re.VERBOSE | re.IGNORECASE)`
      succeeds on `s` and captures `v`. */
  ghost predicate NodeMatch(s: string, v: Version) {
    exists lead, sep, trail :: NodeSplit(s, v, lead, sep, trail)
  }

  /** The same for PYTHON_VERSION_PATTERN. */
  ghost predicate PythonMatch(s: string, v: Version) {
    exists lead, vee, sep1, sep2, trail :: PythonSplit(s, v, lead, vee, sep1, sep2, trail)
  }

  /** The two alternations list the same eight words, in different orders. */
  lemma LabelTablesAgree(l: string)
    ensures IsLabel(l) <==> exists j | 0 <= j < |PythonLabels| :: MatchesCI(l, PythonLabels[j])
  {
    if IsLabel(l) {
      var i :| 0 <= i < |NodeLabels| && MatchesCI(l, NodeLabels[i]);
      var j := [3, 4, 5, 6, 0, 1, 7, 2][i];
      assert PythonLabels[j] == NodeLabels[i];
    }
    if j :| 0 <= j < |PythonLabels| && MatchesCI(l, PythonLabels[j]) {
      var i := [4, 5, 7, 0, 1, 2, 3, 6][j];
      assert NodeLabels[i] == PythonLabels[j];
    }
  }
}
