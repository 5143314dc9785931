/** The two static converters of hatch_nodejs_version/version_source.py,
    `node_version_to_python` and `python_version_to_node`. */
module VersionSource {
  import opened Wrappers
  import opened Chars
  import opened VersionGrammar
  import opened VersionParse

  /** The `ValueError` both converters raise, naming the rejected input. */
  datatype VersionError = NoMatch(version: string)

  /** The optional prerelease part of a version: its label, then its number if any. */
  function PreText(pre: Option<Prerelease>): string {
    if pre.Some? then pre.value.tag + NumberText(pre.value.number) else ""
  }

  /** The joined `parts` of `node_version_to_python`: the release, the label and
      number with no separator, and `+build`. */
  function RenderPython(v: Version): string {
    ReleaseText(v) + PreText(v.pre) + BuildText(v.build)
  }

  /** The joined `parts` of `python_version_to_node`: the release, a dash, the label
      and number, and `+local`. */
  function RenderNode(v: Version): string {
    ReleaseText(v) + (if v.pre.Some? then "-" + PreText(v.pre) else "") + BuildText(v.build)
  }

  lemma NodeParseAll(s: string)
    ensures forall v :: ParseNode(s) == Some(v) <==> NodeMatch(s, v)
  {
    forall v
      ensures ParseNode(s) == Some(v) <==> NodeMatch(s, v)
    {
      NodeParseCorrect(s, v);
    }
  }

  lemma PythonParseAll(s: string)
    ensures forall v :: ParsePython(s) == Some(v) <==> PythonMatch(s, v)
  {
    forall v
      ensures ParsePython(s) == Some(v) <==> PythonMatch(s, v)
    {
      PythonParseCorrect(s, v);
    }
  }

  /** `node_version_to_python`: fails exactly when NODE_VERSION_PATTERN does not
      match, naming the input; otherwise renders the captured groups the Python way. */
  function NodeVersionToPython(version: string): (r: Result<string, VersionError>)
    ensures r.Err? <==> forall v :: !NodeMatch(version, v)
    ensures r.Err? ==> r.error == NoMatch(version)
    ensures forall v :: NodeMatch(version, v) ==> r == Ok(RenderPython(v))
  {
    NodeParseAll(version);
    match ParseNode(version)
    case None => Err(NoMatch(version))
    case Some(v) => Ok(RenderPython(v))
  }

  /** `python_version_to_node`: fails exactly when PYTHON_VERSION_PATTERN does not
      match, naming the input; otherwise renders the captured groups the Node way. */
  function PythonVersionToNode(version: string): (r: Result<string, VersionError>)
    ensures r.Err? <==> forall v :: !PythonMatch(version, v)
    ensures r.Err? ==> r.error == NoMatch(version)
    ensures forall v :: PythonMatch(version, v) ==> r == Ok(RenderNode(v))
  {
    PythonParseAll(version);
    match ParsePython(version)
    case None => Err(NoMatch(version))
    case Some(v) => Ok(RenderNode(v))
  }

  // ---------------------------------------------------------------------------
  // Properties of the converters

  /** The renderers write the texts the patterns accept with every optional
      separator and the `v` left out. */
  lemma RenderedTexts(v: Version)
    ensures RenderNode(v) == NodeText(v, "")
    ensures RenderPython(v) == PythonText(v, "", "", "")
  {
    if v.pre.Some? {
      var p := v.pre.value;
      Concat3("-", p.tag, NumberText(p.number));
    }
  }

  /** Dropping the separators keeps a version well-formed, in either dialect. */
  lemma SyntaxWithoutSeps(v: Version)
    ensures (exists sep :: NodeSyntax(v, sep)) ==> NodeSyntax(v, "") && PythonSyntax(v, "", "", "")
    ensures (exists vee, sep1, sep2 :: PythonSyntax(v, vee, sep1, sep2)) ==> NodeSyntax(v, "")
  {
  }

  /** Whitespace around the input and the separator between label and number do
      not reach the Python output. */
  lemma NodeToPythonNormalises(v: Version, lead: string, sep: string, trail: string)
    requires NodeSplit(lead + NodeText(v, sep) + trail, v, lead, sep, trail)
    ensures NodeVersionToPython(lead + NodeText(v, sep) + trail) == Ok(RenderPython(v))
  {
    assert NodeMatch(lead + NodeText(v, sep) + trail, v);
  }

  /** Whitespace, a leading `v` and the separators around the label do not reach
      the Node output. */
  lemma PythonToNodeNormalises(v: Version, lead: string, vee: string, sep1: string, sep2: string, trail: string)
    requires PythonSplit(lead + PythonText(v, vee, sep1, sep2) + trail, v, lead, vee, sep1, sep2, trail)
    ensures PythonVersionToNode(lead + PythonText(v, vee, sep1, sep2) + trail) == Ok(RenderNode(v))
  {
    assert PythonMatch(lead + PythonText(v, vee, sep1, sep2) + trail, v);
  }

  lemma NodeCanonical(v: Version)
    requires NodeSyntax(v, "")
    ensures NodeVersionToPython(RenderNode(v)) == Ok(RenderPython(v))
  {
    RenderedTexts(v);
    assert [] + NodeText(v, "") + [] == NodeText(v, "");
    NodeToPythonNormalises(v, [], [], []);
  }

  lemma PythonCanonical(v: Version)
    requires PythonSyntax(v, "", "", "")
    ensures PythonVersionToNode(RenderPython(v)) == Ok(RenderNode(v))
  {
    RenderedTexts(v);
    assert [] + PythonText(v, "", "", "") + [] == PythonText(v, "", "", "");
    PythonToNodeNormalises(v, [], [], [], [], []);
  }

  /** A canonical pair: each converter turns one form into the other. */
  lemma CanonicalRoundTrip(v: Version)
    requires NodeSyntax(v, "")
    ensures NodeVersionToPython(RenderNode(v)) == Ok(RenderPython(v))
    ensures PythonVersionToNode(RenderPython(v)) == Ok(RenderNode(v))
  {
    SyntaxWithoutSeps(v);
    NodeCanonical(v);
    PythonCanonical(v);
  }

  /** The Python output of `node_version_to_python` is accepted by
      `python_version_to_node`, which gives back a Node version converting to the
      same Python output. */
  lemma NodeToPythonAccepted(s: string)
    requires NodeVersionToPython(s).Ok?
    ensures var p := NodeVersionToPython(s).value;
            PythonVersionToNode(p).Ok? && NodeVersionToPython(PythonVersionToNode(p).value) == Ok(p)
  {
    var v := ParseNode(s).value;
    var sep := NodeCoreSound(Strip(s));
    SyntaxWithoutSeps(v);
    CanonicalRoundTrip(v);
  }

  /** The Node output of `python_version_to_node` is accepted by
      `node_version_to_python`, which gives back a Python version converting to the
      same Node output. */
  lemma PythonToNodeAccepted(s: string)
    requires PythonVersionToNode(s).Ok?
    ensures var n := PythonVersionToNode(s).value;
            NodeVersionToPython(n).Ok? && PythonVersionToNode(NodeVersionToPython(n).value) == Ok(n)
  {
    var v := ParsePython(s).value;
    var vee, sep1, sep2 := PythonCoreSound(Strip(s));
    SyntaxWithoutSeps(v);
    CanonicalRoundTrip(v);
  }

  /** A text `major.minor.patch` followed by a tail NODE_VERSION_PATTERN cannot
      finish is rejected, with the input in the error. */
  lemma NodeRejectsTail(major: string, minor: string, patch: string, r: string)
    requires IsDigits(major) && IsDigits(minor) && IsDigits(patch)
    requires r != [] && !IsDigit(r[0]) && !IsSpace(r[|r| - 1]) && NodeTail(r) == None
    ensures var s := major + "." + minor + "." + patch + r;
            NodeVersionToPython(s) == Err(NoMatch(s))
  {
    var s := major + "." + minor + "." + patch + r;
    assert s[0] == major[0] && s[|s| - 1] == r[|r| - 1];
    assert [] + s + [] == s;
    StripOf([], s, []);
    ReleaseOf(major, minor, patch, r);
  }

  /** The same for PYTHON_VERSION_PATTERN, without a leading `v`. */
  lemma PythonRejectsTail(major: string, minor: string, patch: string, r: string)
    requires IsDigits(major) && IsDigits(minor) && IsDigits(patch)
    requires r != [] && !IsDigit(r[0]) && !IsSpace(r[|r| - 1]) && PythonTail(r) == None
    ensures var s := major + "." + minor + "." + patch + r;
            PythonVersionToNode(s) == Err(NoMatch(s))
  {
    var s := major + "." + minor + "." + patch + r;
    assert s[0] == major[0] && s[|s| - 1] == r[|r| - 1];
    assert [] + s + [] == s;
    StripOf([], s, []);
    assert !(s[0] == 'v' || s[0] == 'V') && s[0..] == s;
    ReleaseOf(major, minor, patch, r);
    assert ParsePythonCore(s) == None;
  }

  /** `node_version_to_python` rejects a label written straight after the patch
      number: NODE_VERSION_PATTERN wants a dash first. */
  lemma NodeRejectsMissingDash(major: string, minor: string, patch: string, r: string)
    requires IsDigits(major) && IsDigits(minor) && IsDigits(patch)
    requires r != [] && !IsDigit(r[0]) && r[0] != '-' && r[0] != '+' && !IsSpace(r[|r| - 1])
    ensures var s := major + "." + minor + "." + patch + r;
            NodeVersionToPython(s) == Err(NoMatch(s))
  {
    NodeTailNeedsDash(r);
    NodeRejectsTail(major, minor, patch, r);
  }

  /** `node_version_to_python` rejects a letter after the prerelease number and
      before any `+`: there are no post- or dev-release segments. */
  lemma NodeRejectsPostRelease(major: string, minor: string, patch: string, r: string, i: nat, j: nat)
    requires IsDigits(major) && IsDigits(minor) && IsDigits(patch)
    requires r != [] && !IsDigit(r[0]) && !IsSpace(r[|r| - 1])
    requires i < j < |r| && IsDigit(r[i]) && IsLetter(r[j]) && forall k | 0 <= k <= j :: r[k] != '+'
    ensures var s := major + "." + minor + "." + patch + r;
            NodeVersionToPython(s) == Err(NoMatch(s))
  {
    NodeTailLetterAfterDigit(r, i, j);
    NodeRejectsTail(major, minor, patch, r);
  }

  /** The same for `python_version_to_node`. */
  lemma PythonRejectsPostRelease(major: string, minor: string, patch: string, r: string, i: nat, j: nat)
    requires IsDigits(major) && IsDigits(minor) && IsDigits(patch)
    requires r != [] && !IsDigit(r[0]) && !IsSpace(r[|r| - 1])
    requires i < j < |r| && IsDigit(r[i]) && IsLetter(r[j]) && forall k | 0 <= k <= j :: r[k] != '+'
    ensures var s := major + "." + minor + "." + patch + r;
            PythonVersionToNode(s) == Err(NoMatch(s))
  {
    PythonTailLetterAfterDigit(r, i, j);
    PythonRejectsTail(major, minor, patch, r);
  }

  /** `python_version_to_node` rejects a word after the patch number that is not
      one of the labels. */
  lemma PythonRejectsUnknownLabel(major: string, minor: string, patch: string, r: string)
    requires IsDigits(major) && IsDigits(minor) && IsDigits(patch)
    requires r != [] && (forall k | 0 <= k < |r| :: IsLetter(r[k])) && !IsLabel(r)
    ensures var s := major + "." + minor + "." + patch + r;
            PythonVersionToNode(s) == Err(NoMatch(s))
  {
    PythonTailLettersOnly(r);
    PythonRejectsTail(major, minor, patch, r);
  }
}
