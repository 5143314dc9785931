/** What `update` and its helpers in hatch_nodejs_version/metadata_source.py
    promise, stated over the functions of `MetadataParse`. */
module MetadataFacts {
  import opened Wrappers
  import opened Json
  import opened AuthorPattern
  import opened RepositoryPattern
  import opened MetadataParse

  // ---------------------------------------------------------------------------
  // `_parse_bugs`

  /** A string is its own url; an object yields its `"url"`, or null without one. */
  lemma ParseBugsOf(bugs: Json)
    ensures bugs.JString? ==> ParseBugs(bugs) == Ok(bugs)
    ensures bugs.JObject? && "url" in bugs.fields ==> ParseBugs(bugs) == Ok(bugs.fields["url"])
    ensures bugs.JObject? && "url" !in bugs.fields ==> ParseBugs(bugs) == Ok(JNull)
    ensures ParseBugs(bugs).Err? <==> !bugs.JString? && !bugs.JObject? && !(bugs.JArray? && JString("url") !in bugs.items)
    ensures ParseBugs(bugs).Err? ==> ParseBugs(bugs) == Err(WrongType(TypeName(bugs)))
  {
  }

  /** A value of a type the code cannot search, index or match raises a
      `TypeError` that names the value's type. */
  lemma TypeErrorsNameType(x: Json, join: Join)
    ensures !x.JString? && !x.JObject? ==> ParsePerson(x) == Err(WrongType(TypeName(x)))
    ensures !x.JString? && !x.JObject? ==> ParseRepository(x, join) == Err(WrongType(TypeName(x)))
    ensures !x.JString? && !x.JArray? && !x.JObject? ==> ContributorItems(x) == Err(WrongType(TypeName(x)))
    ensures forall m: map<string, Json> | "name" in m && "url" !in m && "email" !in m && !m["name"].JString? ::
      ParsePerson(JObject(m)) == Err(WrongType(TypeName(m["name"])))
  {
  }

  // ---------------------------------------------------------------------------
  // `_parse_person`

  /** Every person has a `name`, may have an `email`, and never anything else. */
  lemma PersonKeys(person: Json)
    ensures ParsePerson(person).Ok? ==>
      "name" in ParsePerson(person).value && ParsePerson(person).value.Keys <= {"name", "email"}
  {
  }

  /** An object with a `url` or `email` keeps its name and email; its url is
      never copied. */
  lemma PersonObject(m: map<string, Json>)
    requires "url" in m || "email" in m
    ensures "name" !in m ==> ParsePerson(JObject(m)) == Err(MissingKey("name"))
    ensures "name" in m ==> ParsePerson(JObject(m)).Ok?
    ensures "name" in m ==>
      var p := ParsePerson(JObject(m)).value;
      && p["name"] == m["name"]
      && ("email" in p <==> "email" in m)
      && ("email" in m ==> p["email"] == m["email"])
      && "url" !in p
  {
  }

  /** `Name <email> (url)` gives the name without the blanks after it, the email
      without its brackets, and drops the url; an object holding only a `name`
      goes the same way. */
  lemma PersonString(name: string, sep1: string, email: Option<string>, sep2: string, url: Option<string>, rest: string)
    requires NameOk(name) && AllBlank(sep1) && AllBlank(sep2)
    requires email.Some? ==> EmailOk(email.value)
    requires url.Some? ==> url.value != [] && forall k | 0 <= k < |url.value| :: url.value[k] != ')'
    requires url.None? ==> rest == []
    ensures var text := JString(AuthorText(name, sep1, email, sep2, url) + rest);
      var expected := Ok(Person(JString(name), if email.Some? then Some(JString(email.value)) else None));
      && ParsePerson(text) == expected
      && ParsePerson(JObject(map["name" := text])) == expected
  {
    AuthorForm(name, sep1, email, sep2, url, rest);
  }

  /** An author string the pattern rejects raises with the string. */
  lemma PersonInvalid(author: string)
    requires MatchAuthor(author) == None
    ensures ParsePerson(JString(author)) == Err(InvalidAuthor(author))
    ensures ParsePerson(JObject(map["name" := JString(author)])) == Err(InvalidAuthor(author))
  {
  }

  /** For example, an email whose `<` is never closed. */
  lemma UnclosedEmailRejected()
    ensures ParsePerson(JString("Alice <alice@example.com")) == Err(InvalidAuthor("Alice <alice@example.com"))
  {
    var s := "Alice <alice@example.com";
    assert s == "Alice " + "<" + "alice@example.com";
    UnclosedEmail("Alice ", "alice@example.com");
    PersonInvalid(s);
  }

  // ---------------------------------------------------------------------------
  // `_parse_repository`

  lemma RepositoryObject(m: map<string, Json>, join: Join)
    ensures "url" in m ==> ParseRepository(JObject(m), join) == Ok(m["url"])
    ensures "url" !in m ==> ParseRepository(JObject(m), join) == Err(MissingKey("url"))
  {
  }

  /** `gitlab:user/repo` and the like resolve against the prefix's host. */
  lemma RepositoryShorthand(kind: string, id: string, join: Join)
    requires kind in Table && forall k | 0 <= k < |id| :: id[k] != '\n'
    ensures ParseRepository(JString(kind + ":" + id), join) == Ok(JString(join(Table[kind], id)))
  {
    assert kind + ":" + id == kind + ":" + id + "";
    RepositoryPrefixed(kind, id, "");
  }

  /** Text without a known prefix resolves against the GitHub host. */
  lemma RepositoryDefault(id: string, join: Join)
    requires forall kind | kind in Table :: !HasPrefix(id, kind)
    requires forall k | 0 <= k < |id| :: id[k] != '\n'
    ensures ParseRepository(JString(id), join) == Ok(JString(join("https://github.com", id)))
  {
    assert id == id + "";
    RepositoryBare(id, "");
  }

  /** A newline before the end matches nothing and raises. */
  lemma RepositoryRejected(s: string, k: nat, join: Join)
    requires k < |s| - 1 && s[k] == '\n'
    ensures ParseRepository(JString(s), join) == Err(InvalidRepository(s))
  {
    RepositoryNewline(s, k);
  }

  // ---------------------------------------------------------------------------
  // The contributors list comprehension

  /** `[self._parse_person(p) for p in items]`: one person per item, in order,
      or the error of the first item that fails. */
  lemma {:induction false} PersonListOf(items: seq<Json>)
    ensures PersonList(items).Ok? <==> forall i | 0 <= i < |items| :: ParsePerson(items[i]).Ok?
    ensures PersonList(items).Ok? ==>
      && |PersonList(items).value| == |items|
      && forall i | 0 <= i < |items| :: PersonList(items).value[i] == JObject(ParsePerson(items[i]).value)
    ensures PersonList(items).Err? ==> exists i | 0 <= i < |items| ::
      && ParsePerson(items[i]) == Err(PersonList(items).error)
      && forall j | 0 <= j < i :: ParsePerson(items[j]).Ok?
  {
    if items != [] {
      PersonListOf(items[1..]);
      assert forall i | 1 <= i < |items| :: items[1..][i - 1] == items[i];
      if ParsePerson(items[0]).Ok? && PersonList(items[1..]).Err? {
        var i :| 0 <= i < |items[1..]| && ParsePerson(items[1..][i]) == Err(PersonList(items[1..]).error)
          && forall j | 0 <= j < i :: ParsePerson(items[1..][j]).Ok?;
        assert ParsePerson(items[i + 1]) == Err(PersonList(items).error);
        assert forall j | 0 <= j < i + 1 :: ParsePerson(items[j]).Ok? by {
          assert forall j | 1 <= j < i + 1 :: items[j] == items[1..][j - 1];
        }
      }
    }
  }

  /** The comprehension over two halves: the first half's error wins. */
  lemma {:induction false} PersonListAppend(a: seq<Json>, b: seq<Json>)
    ensures PersonList(a).Err? ==> PersonList(a + b) == PersonList(a)
    ensures PersonList(a).Ok? && PersonList(b).Err? ==> PersonList(a + b) == PersonList(b)
    ensures PersonList(a).Ok? && PersonList(b).Ok? ==> PersonList(a + b) == Ok(PersonList(a).value + PersonList(b).value)
    decreases |a|
  {
    if a == [] {
      assert a + b == b;
      assert PersonList(a) == Ok([]);
      if PersonList(b).Ok? {
        assert [] + PersonList(b).value == PersonList(b).value;
      }
    } else {
      var ab := a + b;
      assert ab != [] && ab[0] == a[0] && ab[1..] == a[1..] + b;
      PersonListAppend(a[1..], b);
      var first := ParsePerson(a[0]);
      if first.Err? {
        assert PersonList(a) == Err(first.error);
        assert PersonList(ab) == Err(first.error);
      } else {
        var head := [JObject(first.value)];
        var left := PersonList(a[1..]);
        var both := PersonList(a[1..] + b);
        assert PersonList(a) == if left.Err? then Err(left.error) else Ok(head + left.value);
        assert PersonList(ab) == if both.Err? then Err(both.error) else Ok(head + both.value);
        if left.Ok? && PersonList(b).Ok? {
          JoinAssoc(head, left.value, PersonList(b).value);
        }
      }
    }
  }

  lemma JoinAssoc(a: seq<Json>, b: seq<Json>, c: seq<Json>)
    ensures a + (b + c) == a + b + c
  {
  }

  // ---------------------------------------------------------------------------
  // `update`

  /** Every key `update` can produce. */
  const ProducedKeys: set<string> := {"name", "authors", "maintainers", "keywords", "description", "license", "urls"}

  /** `name` is read first and always produced; no other key appears. */
  lemma NameProduced(config: map<string, Json>, package: map<string, Json>, join: Join)
    ensures "name" !in package ==> NewMetadata(config, package, join) == Err(MissingKey("name"))
    ensures NewMetadata(config, package, join).Ok? ==>
      var m := NewMetadata(config, package, join).value;
      "name" in m && m["name"] == package["name"] && m.Keys <= ProducedKeys
  {
  }

  /** `keywords`, `description` and `license` are copied exactly when present. */
  lemma CopiedWhenPresent(config: map<string, Json>, package: map<string, Json>, join: Join, key: string)
    requires key in {"keywords", "description", "license"}
    ensures NewMetadata(config, package, join).Ok? ==>
      var m := NewMetadata(config, package, join).value;
      (key in m <==> key in package) && (key in package ==> m[key] == package[key])
  {
  }

  /** Whether the bugs entry contributes a url. */
  predicate HasBugsUrl(package: map<string, Json>) {
    "bugs" in package && ParseBugs(package["bugs"]).Ok? && ParseBugs(package["bugs"]).value != JNull
  }

  lemma UrlsNonEmpty(config: map<string, Json>, package: map<string, Json>, join: Join)
    ensures Urls(config, package, join).Ok? ==>
      (Urls(config, package, join).value != map[] <==> "homepage" in package || HasBugsUrl(package) || "repository" in package)
  {
    var r1 := HomepageUrl(config, package);
    if r1.Ok? {
      var u1 := r1.value;
      assert u1 == map[] <==> "homepage" !in package by {
        if "homepage" in package {
          assert HomepageLabel(config).value in u1;
        }
      }
      var r2 := BugsUrl(config, package, u1);
      if r2.Ok? {
        var u2 := r2.value;
        assert u2 == map[] <==> u1 == map[] && !HasBugsUrl(package) by {
          if HasBugsUrl(package) {
            assert BugsLabel(config).value in u2;
          } else {
            assert u2 == u1;
          }
        }
        var r3 := RepositoryUrl(config, package, join, u2);
        if r3.Ok? && "repository" in package {
          assert RepositoryLabel(config).value in r3.value;
        }
      }
    }
  }

  /** `urls` is written only when at least one url exists. */
  lemma UrlsProduced(config: map<string, Json>, package: map<string, Json>, join: Join)
    ensures NewMetadata(config, package, join).Ok? ==>
      ("urls" in NewMetadata(config, package, join).value <==>
        "homepage" in package || HasBugsUrl(package) || "repository" in package)
  {
    UrlsNonEmpty(config, package, join);
  }

  /** A bugs object without a url adds nothing. */
  lemma BugsWithoutUrl(config: map<string, Json>, package: map<string, Json>, join: Join)
    requires "bugs" in package && package["bugs"].JObject? && "url" !in package["bugs"].fields
    ensures NewMetadata(config, package, join) == NewMetadata(config, package - {"bugs"}, join)
  {
    var rest := package - {"bugs"};
    assert People(config, package) == People(config, rest) by {
      assert AuthorList(package) == AuthorList(rest);
    }
    assert Urls(config, package, join) == Urls(config, rest, join) by {
      assert HomepageUrl(config, package) == HomepageUrl(config, rest);
      if HomepageUrl(config, package).Ok? {
        var u1 := HomepageUrl(config, package).value;
        assert BugsUrl(config, package, u1) == Ok(u1);
        assert BugsUrl(config, rest, u1) == Ok(u1);
        assert RepositoryUrl(config, package, join, u1) == RepositoryUrl(config, rest, join, u1);
      }
    }
    if "name" in package {
      assert Lookup(package, "keywords") == Lookup(rest, "keywords");
      assert Lookup(package, "description") == Lookup(rest, "description");
      assert Lookup(package, "license") == Lookup(rest, "license");
      forall a, b, u {
        AssembleReads(package, rest, a, b, u);
      }
    }
  }

  /** `new_metadata` reads only the name and the three copied keys of the package. */
  lemma AssembleReads(p: map<string, Json>, q: map<string, Json>, authors: Option<seq<Json>>, maintainers: Option<seq<Json>>, urls: map<string, Json>)
    requires "name" in p && "name" in q && p["name"] == q["name"]
    requires Lookup(p, "keywords") == Lookup(q, "keywords")
    requires Lookup(p, "description") == Lookup(q, "description")
    requires Lookup(p, "license") == Lookup(q, "license")
    ensures Assemble(p, authors, maintainers, urls) == Assemble(q, authors, maintainers, urls)
  {
    var m := PeopleEntries(p, authors, maintainers);
    assert m == PeopleEntries(q, authors, maintainers);
    assert CopyEntries(m, p) == CopyEntries(m, q);
  }

  /** The author's person, as the one-element list `update` starts from. */
  function AuthorPart(package: map<string, Json>): seq<Json>
    requires "author" in package ==> ParsePerson(package["author"]).Ok?
  {
    if "author" in package then [JObject(ParsePerson(package["author"]).value)] else []
  }

  /** The parsed contributors, when they parse. */
  predicate ContributorsParse(package: map<string, Json>, contributors: seq<Json>) {
    && "contributors" in package
    && ContributorItems(package["contributors"]).Ok?
    && PersonList(ContributorItems(package["contributors"]).value) == Ok(contributors)
  }

  /** With `contributors-as-maintainers` on (the default), the contributors
      become `maintainers` and `authors` holds only the author. */
  lemma ContributorsAsMaintainers(config: map<string, Json>, package: map<string, Json>, join: Join, contributors: seq<Json>)
    requires ContributorsParse(package, contributors) && CamOption(config) == Ok(true)
    ensures NewMetadata(config, package, join).Ok? ==>
      var m := NewMetadata(config, package, join).value;
      && "maintainers" in m && m["maintainers"] == JArray(contributors)
      && ("authors" in m <==> "author" in package)
      && ("author" in package ==> m["authors"] == JArray(AuthorPart(package)))
  {
  }

  /** With it off, `authors` is the author followed by the contributors, in
      order, and there are no maintainers. */
  lemma ContributorsAsAuthors(config: map<string, Json>, package: map<string, Json>, join: Join, contributors: seq<Json>)
    requires ContributorsParse(package, contributors) && CamOption(config) == Ok(false)
    ensures NewMetadata(config, package, join).Ok? ==>
      var m := NewMetadata(config, package, join).value;
      && "maintainers" !in m
      && "authors" in m && m["authors"] == JArray(AuthorPart(package) + contributors)
  {
  }

  /** Without contributors there are no maintainers, and `authors` appears
      exactly when there is an author. */
  lemma NoContributors(config: map<string, Json>, package: map<string, Json>, join: Join)
    requires "contributors" !in package
    ensures NewMetadata(config, package, join).Ok? ==>
      var m := NewMetadata(config, package, join).value;
      && "maintainers" !in m
      && ("authors" in m <==> "author" in package)
      && ("author" in package ==> m["authors"] == JArray(AuthorPart(package)))
  {
  }

  /** `contributors-as-maintainers` is read only when there are contributors,
      so without them its value, even a wrong one, changes nothing. */
  lemma CamReadLazily(config: map<string, Json>, package: map<string, Json>, join: Join, value: Json)
    requires "contributors" !in package
    ensures NewMetadata(config, package, join) == NewMetadata(config["contributors-as-maintainers" := value], package, join)
  {
    var other := config["contributors-as-maintainers" := value];
    assert HomepageLabel(config) == HomepageLabel(other);
    assert BugsLabel(config) == BugsLabel(other);
    assert RepositoryLabel(config) == RepositoryLabel(other);
    assert HomepageUrl(config, package) == HomepageUrl(other, package);
    forall urls: map<string, Json>
      ensures BugsUrl(config, package, urls) == BugsUrl(other, package, urls)
      ensures RepositoryUrl(config, package, join, urls) == RepositoryUrl(other, package, join, urls)
    {
    }
    assert Urls(config, package, join) == Urls(other, package, join);
  }

  /** With `fields` set, only the listed keys that were produced are written. */
  lemma WrittenFields(config: map<string, Json>, package: map<string, Json>, join: Join)
    ensures Written(config, package, join).Ok? ==>
      && NewMetadata(config, package, join).Ok? && FieldsOption(config).Ok?
      && var produced := NewMetadata(config, package, join).value;
         var written := Written(config, package, join).value;
         && (FieldsOption(config).value.None? ==> written == produced)
         && (FieldsOption(config).value.Some? ==> written.Keys == produced.Keys * FieldsOption(config).value.value)
         && forall k | k in written :: written[k] == produced[k]
  {
  }
}
