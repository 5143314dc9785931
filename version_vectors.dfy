/** The version pairs and rejected inputs of tests/test_version_config.py, derived
    from the general properties of the converters. */
module VersionVectors {
  import opened Wrappers
  import opened Chars
  import opened VersionGrammar
  import opened VersionParse
  import opened VersionSource

  /** One row of the table of good pairs: each converter maps one side to the other. */
  lemma GoodPair(v: Version, node: string, python: string)
    requires NodeSyntax(v, "") && RenderNode(v) == node && RenderPython(v) == python
    ensures NodeVersionToPython(node) == Ok(python) && PythonVersionToNode(python) == Ok(node)
  {
    CanonicalRoundTrip(v);
  }

  lemma LabelWord(l: string, i: nat)
    requires i < |NodeLabels| && l == NodeLabels[i]
    ensures IsLabel(l)
  {
    assert MatchesCI(l, NodeLabels[i]);
  }

  /** The build segments of the table are well-formed. */
  lemma TableBuild11()
    ensures IsBuild("build1.0.0")
  {
  }

  lemma TableBuild12()
    ensures IsBuild("build-1.0.0")
  {
  }

  lemma TableBuild13()
    ensures IsBuild("good-1_0.0")
  {
  }

  lemma GoodPair01()
    ensures NodeVersionToPython("1.4.5") == Ok("1.4.5") && PythonVersionToNode("1.4.5") == Ok("1.4.5")
  {
    var v := Version("1", "4", "5", None, None);
    assert RenderNode(v) == "1.4.5" && RenderPython(v) == "1.4.5";
    assert NodeSyntax(v, "");
    GoodPair(v, "1.4.5", "1.4.5");
  }

  lemma GoodPair02()
    ensures NodeVersionToPython("1.4.5-a0") == Ok("1.4.5a0") && PythonVersionToNode("1.4.5a0") == Ok("1.4.5-a0")
  {
    var v := Version("1", "4", "5", Some(Prerelease("a", Some("0"))), None);
    assert RenderNode(v) == "1.4.5-a0" && RenderPython(v) == "1.4.5a0";
    assert NodeSyntax(v, "") by {
      LabelWord("a", 0);
    }
    GoodPair(v, "1.4.5-a0", "1.4.5a0");
  }

  lemma GoodPair03()
    ensures NodeVersionToPython("1.4.5-a") == Ok("1.4.5a") && PythonVersionToNode("1.4.5a") == Ok("1.4.5-a")
  {
    var v := Version("1", "4", "5", Some(Prerelease("a", None)), None);
    assert RenderNode(v) == "1.4.5-a" && RenderPython(v) == "1.4.5a";
    assert NodeSyntax(v, "") by {
      LabelWord("a", 0);
    }
    GoodPair(v, "1.4.5-a", "1.4.5a");
  }

  lemma GoodPair04()
    ensures NodeVersionToPython("1.4.5-b0") == Ok("1.4.5b0") && PythonVersionToNode("1.4.5b0") == Ok("1.4.5-b0")
  {
    var v := Version("1", "4", "5", Some(Prerelease("b", Some("0"))), None);
    assert RenderNode(v) == "1.4.5-b0" && RenderPython(v) == "1.4.5b0";
    assert NodeSyntax(v, "") by {
      LabelWord("b", 1);
    }
    GoodPair(v, "1.4.5-b0", "1.4.5b0");
  }

  lemma GoodPair05()
    ensures NodeVersionToPython("1.4.5-c1") == Ok("1.4.5c1") && PythonVersionToNode("1.4.5c1") == Ok("1.4.5-c1")
  {
    var v := Version("1", "4", "5", Some(Prerelease("c", Some("1"))), None);
    assert RenderNode(v) == "1.4.5-c1" && RenderPython(v) == "1.4.5c1";
    assert NodeSyntax(v, "") by {
      LabelWord("c", 2);
    }
    GoodPair(v, "1.4.5-c1", "1.4.5c1");
  }

  lemma GoodPair06()
    ensures NodeVersionToPython("1.4.5-rc0") == Ok("1.4.5rc0") && PythonVersionToNode("1.4.5rc0") == Ok("1.4.5-rc0")
  {
    var v := Version("1", "4", "5", Some(Prerelease("rc", Some("0"))), None);
    assert RenderNode(v) == "1.4.5-rc0" && RenderPython(v) == "1.4.5rc0";
    assert NodeSyntax(v, "") by {
      LabelWord("rc", 3);
    }
    GoodPair(v, "1.4.5-rc0", "1.4.5rc0");
  }

  lemma GoodPair07()
    ensures NodeVersionToPython("1.4.5-alpha0") == Ok("1.4.5alpha0") && PythonVersionToNode("1.4.5alpha0") == Ok("1.4.5-alpha0")
  {
    var v := Version("1", "4", "5", Some(Prerelease("alpha", Some("0"))), None);
    assert RenderNode(v) == "1.4.5-alpha0" && RenderPython(v) == "1.4.5alpha0";
    assert NodeSyntax(v, "") by {
      LabelWord("alpha", 4);
    }
    GoodPair(v, "1.4.5-alpha0", "1.4.5alpha0");
  }

  lemma GoodPair08()
    ensures NodeVersionToPython("1.4.5-beta0") == Ok("1.4.5beta0") && PythonVersionToNode("1.4.5beta0") == Ok("1.4.5-beta0")
  {
    var v := Version("1", "4", "5", Some(Prerelease("beta", Some("0"))), None);
    assert RenderNode(v) == "1.4.5-beta0" && RenderPython(v) == "1.4.5beta0";
    assert NodeSyntax(v, "") by {
      LabelWord("beta", 5);
    }
    GoodPair(v, "1.4.5-beta0", "1.4.5beta0");
  }

  lemma GoodPair09()
    ensures NodeVersionToPython("1.4.5-pre9") == Ok("1.4.5pre9") && PythonVersionToNode("1.4.5pre9") == Ok("1.4.5-pre9")
  {
    var v := Version("1", "4", "5", Some(Prerelease("pre", Some("9"))), None);
    assert RenderNode(v) == "1.4.5-pre9" && RenderPython(v) == "1.4.5pre9";
    assert NodeSyntax(v, "") by {
      LabelWord("pre", 6);
    }
    GoodPair(v, "1.4.5-pre9", "1.4.5pre9");
  }

  lemma GoodPair10()
    ensures NodeVersionToPython("1.4.5-preview0") == Ok("1.4.5preview0") && PythonVersionToNode("1.4.5preview0") == Ok("1.4.5-preview0")
  {
    var v := Version("1", "4", "5", Some(Prerelease("preview", Some("0"))), None);
    assert RenderNode(v) == "1.4.5-preview0" && RenderPython(v) == "1.4.5preview0";
    assert NodeSyntax(v, "") by {
      LabelWord("preview", 7);
    }
    GoodPair(v, "1.4.5-preview0", "1.4.5preview0");
  }

  /** The `preview0` rows with a build segment differ only in that segment. */
  lemma PreviewPair(build: string)
    requires IsBuild(build)
    ensures NodeVersionToPython("1.4.5-preview0+" + build) == Ok("1.4.5preview0+" + build)
    ensures PythonVersionToNode("1.4.5preview0+" + build) == Ok("1.4.5-preview0+" + build)
  {
    var v := Version("1", "4", "5", Some(Prerelease("preview", Some("0"))), Some(build));
    assert NodeSyntax(v, "") by {
      LabelWord("preview", 7);
    }
    var w := v.(build := None);
    PreviewRender(w);
    WithBuild(w, build);
    GoodPair(v, "1.4.5-preview0+" + build, "1.4.5preview0+" + build);
  }

  /** `1.4.5-preview0` in both renderings, with the `+` of a build appended. */
  lemma PreviewRender(w: Version)
    requires w == Version("1", "4", "5", Some(Prerelease("preview", Some("0"))), None)
    ensures RenderNode(w) + "+" == "1.4.5-preview0+" && RenderPython(w) + "+" == "1.4.5preview0+"
  {
    assert RenderNode(w) == "1.4.5-preview0";
    assert RenderPython(w) == "1.4.5preview0";
  }

  /** Rendering a version with a build segment appends `+build` to the rendering
      without it. */
  lemma WithBuild(w: Version, build: string)
    requires w.build.None?
    ensures RenderNode(w.(build := Some(build))) == (RenderNode(w) + "+") + build
    ensures RenderPython(w.(build := Some(build))) == (RenderPython(w) + "+") + build
  {
    var v := w.(build := Some(build));
    assert ReleaseText(v) == ReleaseText(w) && v.pre == w.pre;
    assert BuildText(v.build) == "+" + build;
  }

  /** The three `preview0` rows, as the common prefix followed by the build. */
  lemma PreviewRows()
    ensures "1.4.5-preview0+" + "build1.0.0" == "1.4.5-preview0+build1.0.0"
    ensures "1.4.5preview0+" + "build1.0.0" == "1.4.5preview0+build1.0.0"
    ensures "1.4.5-preview0+" + "build-1.0.0" == "1.4.5-preview0+build-1.0.0"
    ensures "1.4.5preview0+" + "build-1.0.0" == "1.4.5preview0+build-1.0.0"
    ensures "1.4.5-preview0+" + "good-1_0.0" == "1.4.5-preview0+good-1_0.0"
    ensures "1.4.5preview0+" + "good-1_0.0" == "1.4.5preview0+good-1_0.0"
  {
  }

  lemma GoodPair11()
    ensures NodeVersionToPython("1.4.5-preview0+build1.0.0") == Ok("1.4.5preview0+build1.0.0") && PythonVersionToNode("1.4.5preview0+build1.0.0") == Ok("1.4.5-preview0+build1.0.0")
  {
    TableBuild11();
    PreviewPair("build1.0.0");
    PreviewRows();
  }

  lemma GoodPair12()
    ensures NodeVersionToPython("1.4.5-preview0+build-1.0.0") == Ok("1.4.5preview0+build-1.0.0") && PythonVersionToNode("1.4.5preview0+build-1.0.0") == Ok("1.4.5-preview0+build-1.0.0")
  {
    TableBuild12();
    PreviewPair("build-1.0.0");
    PreviewRows();
  }

  lemma GoodPair13()
    ensures NodeVersionToPython("1.4.5-preview0+good-1_0.0") == Ok("1.4.5preview0+good-1_0.0") && PythonVersionToNode("1.4.5preview0+good-1_0.0") == Ok("1.4.5-preview0+good-1_0.0")
  {
    TableBuild13();
    PreviewPair("good-1_0.0");
    PreviewRows();
  }

  /** The table of good pairs, both ways. */
  lemma GoodPairsTable()
    ensures NodeVersionToPython("1.4.5") == Ok("1.4.5") && PythonVersionToNode("1.4.5") == Ok("1.4.5")
    ensures NodeVersionToPython("1.4.5-a0") == Ok("1.4.5a0") && PythonVersionToNode("1.4.5a0") == Ok("1.4.5-a0")
    ensures NodeVersionToPython("1.4.5-a") == Ok("1.4.5a") && PythonVersionToNode("1.4.5a") == Ok("1.4.5-a")
    ensures NodeVersionToPython("1.4.5-b0") == Ok("1.4.5b0") && PythonVersionToNode("1.4.5b0") == Ok("1.4.5-b0")
    ensures NodeVersionToPython("1.4.5-c1") == Ok("1.4.5c1") && PythonVersionToNode("1.4.5c1") == Ok("1.4.5-c1")
    ensures NodeVersionToPython("1.4.5-rc0") == Ok("1.4.5rc0") && PythonVersionToNode("1.4.5rc0") == Ok("1.4.5-rc0")
    ensures NodeVersionToPython("1.4.5-alpha0") == Ok("1.4.5alpha0") && PythonVersionToNode("1.4.5alpha0") == Ok("1.4.5-alpha0")
    ensures NodeVersionToPython("1.4.5-beta0") == Ok("1.4.5beta0") && PythonVersionToNode("1.4.5beta0") == Ok("1.4.5-beta0")
    ensures NodeVersionToPython("1.4.5-pre9") == Ok("1.4.5pre9") && PythonVersionToNode("1.4.5pre9") == Ok("1.4.5-pre9")
    ensures NodeVersionToPython("1.4.5-preview0") == Ok("1.4.5preview0") && PythonVersionToNode("1.4.5preview0") == Ok("1.4.5-preview0")
    ensures NodeVersionToPython("1.4.5-preview0+build1.0.0") == Ok("1.4.5preview0+build1.0.0") && PythonVersionToNode("1.4.5preview0+build1.0.0") == Ok("1.4.5-preview0+build1.0.0")
    ensures NodeVersionToPython("1.4.5-preview0+build-1.0.0") == Ok("1.4.5preview0+build-1.0.0") && PythonVersionToNode("1.4.5preview0+build-1.0.0") == Ok("1.4.5-preview0+build-1.0.0")
    ensures NodeVersionToPython("1.4.5-preview0+good-1_0.0") == Ok("1.4.5preview0+good-1_0.0") && PythonVersionToNode("1.4.5preview0+good-1_0.0") == Ok("1.4.5-preview0+good-1_0.0")
  {
    GoodPair01();
    GoodPair02();
    GoodPair03();
    GoodPair04();
    GoodPair05();
    GoodPair06();
    GoodPair07();
    GoodPair08();
    GoodPair09();
    GoodPair10();
    GoodPair11();
    GoodPair12();
    GoodPair13();
  }

  /** A version without a patch number is rejected by both converters. */
  lemma MissingPatchRejected()
    ensures NodeVersionToPython("1.4") == Err(NoMatch("1.4"))
    ensures PythonVersionToNode("1.4") == Err(NoMatch("1.4"))
  {
  }

  /** The release `1.4.5` of the rejected rows, as its three groups. */
  lemma Release145(r: string)
    ensures "1" + "." + "4" + "." + "5" + r == "1.4.5" + r
  {
    assert "1" + "." + "4" + "." + "5" == "1.4.5";
  }

  lemma NodeRejected1()
    ensures NodeVersionToPython("1.4.5a0") == Err(NoMatch("1.4.5a0"))
  {
    Release145("a0");
    assert "1.4.5a0" == "1.4.5" + "a0";
    NodeRejectsMissingDash("1", "4", "5", "a0");
  }

  lemma NodeRejected2()
    ensures NodeVersionToPython("1.4.5-c0.post1") == Err(NoMatch("1.4.5-c0.post1"))
  {
    Release145("-c0.post1");
    assert "1.4.5-c0.post1" == "1.4.5" + "-c0.post1";
    NodeRejectsPostRelease("1", "4", "5", "-c0.post1", 2, 4);
  }

  lemma NodeRejected3()
    ensures NodeVersionToPython("1.4.5-rc0.post1.dev2") == Err(NoMatch("1.4.5-rc0.post1.dev2"))
  {
    Release145("-rc0.post1.dev2");
    assert "1.4.5-rc0.post1.dev2" == "1.4.5" + "-rc0.post1.dev2";
    NodeRejectsPostRelease("1", "4", "5", "-rc0.post1.dev2", 3, 5);
  }

  lemma NodeRejected4()
    ensures NodeVersionToPython("1.4.5-rc0.post1+-bad") == Err(NoMatch("1.4.5-rc0.post1+-bad"))
  {
    Release145("-rc0.post1+-bad");
    assert "1.4.5-rc0.post1+-bad" == "1.4.5" + "-rc0.post1+-bad";
    NodeRejectsPostRelease("1", "4", "5", "-rc0.post1+-bad", 3, 5);
  }

  lemma NodeRejected5()
    ensures NodeVersionToPython("1.4.5-rc0.post1+bad_") == Err(NoMatch("1.4.5-rc0.post1+bad_"))
  {
    Release145("-rc0.post1+bad_");
    assert "1.4.5-rc0.post1+bad_" == "1.4.5" + "-rc0.post1+bad_";
    NodeRejectsPostRelease("1", "4", "5", "-rc0.post1+bad_", 3, 5);
  }

  lemma PythonRejected1()
    ensures PythonVersionToNode("1.4.5ab") == Err(NoMatch("1.4.5ab"))
  {
    NotALabel();
    Release145("ab");
    assert "1.4.5ab" == "1.4.5" + "ab";
    PythonRejectsUnknownLabel("1", "4", "5", "ab");
  }

  lemma PythonRejected2()
    ensures PythonVersionToNode("1.4.5-c0.smoke2") == Err(NoMatch("1.4.5-c0.smoke2"))
  {
    Release145("-c0.smoke2");
    assert "1.4.5-c0.smoke2" == "1.4.5" + "-c0.smoke2";
    PythonRejectsPostRelease("1", "4", "5", "-c0.smoke2", 2, 4);
  }

  lemma PythonRejected3()
    ensures PythonVersionToNode("1.4.5rc.post1@dev2") == Err(NoMatch("1.4.5rc.post1@dev2"))
  {
    Release145("rc.post1@dev2");
    assert "1.4.5rc.post1@dev2" == "1.4.5" + "rc.post1@dev2";
    PythonRejectsPostRelease("1", "4", "5", "rc.post1@dev2", 7, 9);
  }

  lemma PythonRejected4()
    ensures PythonVersionToNode("1.4.5rc0.post1+-bad") == Err(NoMatch("1.4.5rc0.post1+-bad"))
  {
    Release145("rc0.post1+-bad");
    assert "1.4.5rc0.post1+-bad" == "1.4.5" + "rc0.post1+-bad";
    PythonRejectsPostRelease("1", "4", "5", "rc0.post1+-bad", 2, 4);
  }

  lemma PythonRejected5()
    ensures PythonVersionToNode("1.4.5rc0.post1+bad_") == Err(NoMatch("1.4.5rc0.post1+bad_"))
  {
    Release145("rc0.post1+bad_");
    assert "1.4.5rc0.post1+bad_" == "1.4.5" + "rc0.post1+bad_";
    PythonRejectsPostRelease("1", "4", "5", "rc0.post1+bad_", 2, 4);
  }

  lemma NotALabel()
    ensures !IsLabel("ab")
  {
    forall i | 0 <= i < |NodeLabels|
      ensures !MatchesCI("ab", NodeLabels[i])
    {
      if |NodeLabels[i]| == 2 {
        assert NodeLabels[i] == "rc";
        assert !FoldsTo('a', 'r');
      }
    }
  }

  /** The Node versions the tests reject: no dash before the label, and post- or dev-release segments. */
  lemma NodeRejectedTable()
    ensures NodeVersionToPython("1.4.5a0") == Err(NoMatch("1.4.5a0"))
    ensures NodeVersionToPython("1.4.5-c0.post1") == Err(NoMatch("1.4.5-c0.post1"))
    ensures NodeVersionToPython("1.4.5-rc0.post1.dev2") == Err(NoMatch("1.4.5-rc0.post1.dev2"))
    ensures NodeVersionToPython("1.4.5-rc0.post1+-bad") == Err(NoMatch("1.4.5-rc0.post1+-bad"))
    ensures NodeVersionToPython("1.4.5-rc0.post1+bad_") == Err(NoMatch("1.4.5-rc0.post1+bad_"))
  {
    NodeRejected1();
    NodeRejected2();
    NodeRejected3();
    NodeRejected4();
    NodeRejected5();
  }

  /** The Python versions the tests reject: an unknown label, and post-, dev- or `@` segments. */
  lemma PythonRejectedTable()
    ensures PythonVersionToNode("1.4.5ab") == Err(NoMatch("1.4.5ab"))
    ensures PythonVersionToNode("1.4.5-c0.smoke2") == Err(NoMatch("1.4.5-c0.smoke2"))
    ensures PythonVersionToNode("1.4.5rc.post1@dev2") == Err(NoMatch("1.4.5rc.post1@dev2"))
    ensures PythonVersionToNode("1.4.5rc0.post1+-bad") == Err(NoMatch("1.4.5rc0.post1+-bad"))
    ensures PythonVersionToNode("1.4.5rc0.post1+bad_") == Err(NoMatch("1.4.5rc0.post1+bad_"))
  {
    PythonRejected1();
    PythonRejected2();
    PythonRejected3();
    PythonRejected4();
    PythonRejected5();
  }
}
