/** The demo package of tests/test_metadata_config.py run through the model of
    `update`, with the labels the code defaults to. */
module MetadataVectors {
  import opened Wrappers
  import opened Json
  import opened MetadataParse

  function Str(s: string): Json {
    JString(s)
  }

  const Alice: map<string, Json> := map["name" := Str("Alice Roberts"), "email" := Str("alice.roberts@bbc.lol")]
  const Isaac: map<string, Json> := map["name" := Str("Isaac Newton"), "email" := Str("isaac.newton@apple.com")]
  const Keywords: Json := JArray([Str("what"), Str("is"), Str("the"), Str("time")])

  /** `DEMO_PACKAGE_CONTENTS` as `json.load` returns it. */
  const DemoPackage: map<string, Json> := map[
    "name" := Str("my-app"),
    "version" := Str("1.0.0"),
    "description" := Str("A terrible package"),
    "keywords" := Keywords,
    "homepage" := Str("https://where-the-heart-is.com"),
    "bugs" := JObject(map["url" := Str("https://www.send-help.com"), "email" := Str("funky@rider.com")]),
    "license" := Str("MIT"),
    "author" := JObject(Alice),
    "contributors" := JArray([JObject(Isaac)]),
    "repository" := JObject(map["type" := Str("git"), "url" := Str("https://github.com/some/code.git")])
  ]

  /** The `urls` table of `EXPECTED_METADATA`, under the code's labels (in the
      order `update` writes them). */
  const DemoUrls: map<string, Json> := map[
    "Homepage" := Str("https://where-the-heart-is.com"),
    "Bug Tracker" := Str("https://www.send-help.com"),
    "Repository" := Str("https://github.com/some/code.git")
  ]

  /** `EXPECTED_METADATA`, with the url labels the code writes by default (the
      keys in the order `update` writes them). */
  const Expected: map<string, Json> := map[
    "name" := Str("my-app"),
    "authors" := JArray([JObject(Alice)]),
    "maintainers" := JArray([JObject(Isaac)]),
    "keywords" := Keywords,
    "description" := Str("A terrible package"),
    "license" := Str("MIT"),
    "urls" := JObject(DemoUrls)
  ]

  /** A person object with an email is copied as it is. */
  lemma CopiedPerson(name: string, email: string)
    ensures ParsePerson(JObject(map["name" := Str(name), "email" := Str(email)]))
         == Ok(map["name" := Str(name), "email" := Str(email)])
  {
    var m := map["name" := Str(name), "email" := Str(email)];
    assert "name" in m && "email" in m;
    var p := Person(m["name"], Some(m["email"]));
    assert p == m;
    assert ParsePerson(JObject(m)) == Ok(p);
  }

  /** The author and the contributor list of the demo package, parsed. */
  lemma DemoPersons()
    ensures AuthorList(DemoPackage) == Ok(Some([JObject(Alice)]))
    ensures "contributors" in DemoPackage
    ensures ContributorItems(DemoPackage["contributors"]) == Ok([JObject(Isaac)])
    ensures PersonList([JObject(Isaac)]) == Ok([JObject(Isaac)])
  {
    CopiedPerson("Alice Roberts", "alice.roberts@bbc.lol");
    CopiedPerson("Isaac Newton", "isaac.newton@apple.com");
    assert [JObject(Isaac)][1..] == [];
    assert PersonList([JObject(Isaac)]) == Ok([JObject(Isaac)] + []);
    assert [JObject(Isaac)] + [] == [JObject(Isaac)];
    assert "author" in DemoPackage && DemoPackage["author"] == JObject(Alice);
    assert DemoPackage["contributors"] == JArray([JObject(Isaac)]);
  }

  lemma DemoPeople(config: map<string, Json>)
    requires CamOption(config) == Ok(true)
    ensures People(config, DemoPackage) == Ok((Some([JObject(Alice)]), Some([JObject(Isaac)])))
  {
    DemoPersons();
  }

  /** Options that keep the defaults of everything `update` reads. */
  predicate DefaultOptions(config: map<string, Json>) {
    CamOption(config) == Ok(true) && DefaultLabels(config)
  }

  predicate DefaultLabels(config: map<string, Json>) {
    && HomepageLabel(config) == Ok("Homepage")
    && BugsLabel(config) == Ok("Bug Tracker")
    && RepositoryLabel(config) == Ok("Repository")
  }

  /** The `urls` table when the homepage, a bugs object with a url and a
      repository object are all present, under the default labels. */
  lemma UrlsAll(config: map<string, Json>, package: map<string, Json>, join: Join)
    requires DefaultLabels(config)
    requires "homepage" in package
    requires "bugs" in package && package["bugs"].JObject? && "url" in package["bugs"].fields
    requires package["bugs"].fields["url"] != JNull
    requires "repository" in package && package["repository"].JObject? && "url" in package["repository"].fields
    ensures Urls(config, package, join) == Ok(map[
      "Homepage" := package["homepage"],
      "Bug Tracker" := package["bugs"].fields["url"],
      "Repository" := package["repository"].fields["url"]])
  {
  }

  /** The values of the demo package that end up in the metadata. */
  lemma DemoLookups()
    ensures "name" in DemoPackage && DemoPackage["name"] == Str("my-app")
    ensures "keywords" in DemoPackage && DemoPackage["keywords"] == Keywords
    ensures "description" in DemoPackage && DemoPackage["description"] == Str("A terrible package")
    ensures "license" in DemoPackage && DemoPackage["license"] == Str("MIT")
    ensures "homepage" in DemoPackage && DemoPackage["homepage"] == Str("https://where-the-heart-is.com")
    ensures "bugs" in DemoPackage && DemoPackage["bugs"] == JObject(map["url" := Str("https://www.send-help.com"), "email" := Str("funky@rider.com")])
    ensures "repository" in DemoPackage && DemoPackage["repository"] == JObject(map["type" := Str("git"), "url" := Str("https://github.com/some/code.git")])
  {
  }

  lemma DemoUrlTable(config: map<string, Json>, join: Join)
    requires DefaultLabels(config)
    ensures Urls(config, DemoPackage, join) == Ok(DemoUrls)
  {
    DemoLookups();
    assert DemoPackage["bugs"].fields["url"] == Str("https://www.send-help.com");
    assert DemoPackage["repository"].fields["url"] == Str("https://github.com/some/code.git");
    UrlsAll(config, DemoPackage, join);
  }

  /** `new_metadata` when every key is produced. */
  lemma AssembleAll(package: map<string, Json>, authors: seq<Json>, maintainers: seq<Json>, urls: map<string, Json>)
    requires "name" in package && "keywords" in package && "description" in package && "license" in package
    requires urls != map[]
    ensures Assemble(package, Some(authors), Some(maintainers), urls) == map[
      "name" := package["name"],
      "authors" := JArray(authors),
      "maintainers" := JArray(maintainers),
      "keywords" := package["keywords"],
      "description" := package["description"],
      "license" := package["license"],
      "urls" := JObject(urls)]
  {
  }

  lemma DemoAssembled()
    ensures Assemble(DemoPackage, Some([JObject(Alice)]), Some([JObject(Isaac)]), DemoUrls) == Expected
  {
    assert "Homepage" in DemoUrls;
    DemoLookups();
    AssembleAll(DemoPackage, [JObject(Alice)], [JObject(Isaac)], DemoUrls);
  }

  lemma DemoProduced(config: map<string, Json>, join: Join)
    requires DefaultOptions(config)
    ensures NewMetadata(config, DemoPackage, join) == Ok(Expected)
  {
    DemoPeople(config);
    DemoUrlTable(config, join);
    DemoAssembled();
  }

  /** `test_all_metadata`: every key, with the default options. */
  lemma DemoAll(join: Join)
    ensures Written(map[], DemoPackage, join) == Ok(Expected)
  {
    DemoProduced(map[], join);
    assert FieldsOption(map[]) == Ok(None);
  }

  /** Selecting one produced key keeps exactly that entry. */
  lemma SelectOne(produced: map<string, Json>, field: string)
    requires field in produced
    ensures Select(produced, Some({field})) == map[field := produced[field]]
  {
    assert Select(produced, Some({field})).Keys == {field};
  }

  lemma OneField(field: string)
    ensures FieldsOption(map["fields" := JArray([Str(field)])]) == Ok(Some({field}))
  {
    var items := [Str(field)];
    assert items[0].s == field;
    assert (set i | 0 <= i < |items| :: items[i].s) == {field};
  }

  /** `test_subset_metadata`: with `fields` naming one key, only that key is
      written, with its full value. */
  lemma DemoSubset(field: string, join: Join)
    requires field in Expected
    ensures Written(map["fields" := JArray([Str(field)])], DemoPackage, join) == Ok(map[field := Expected[field]])
  {
    var config := map["fields" := JArray([Str(field)])];
    DemoProduced(config, join);
    OneField(field);
    SelectOne(Expected, field);
  }

  /** `test_contributors_as_maintainers`: with the option set to true, the
      contributor becomes the maintainer and the author stays alone. */
  lemma DemoAsMaintainers(join: Join)
    ensures Written(map["contributors-as-maintainers" := JBool(true)], DemoPackage, join) == Ok(Expected)
  {
    var config := map["contributors-as-maintainers" := JBool(true)];
    OnlyCam(true);
    DemoProduced(config, join);
    WrittenAll(config, DemoPackage, join, Expected);
  }

  /** A config that sets only `contributors-as-maintainers`. */
  lemma OnlyCam(b: bool)
    ensures var config := map["contributors-as-maintainers" := JBool(b)];
      CamOption(config) == Ok(b) && DefaultLabels(config) && FieldsOption(config) == Ok(None)
  {
  }

  /** Without `fields`, `update` writes every produced key. */
  lemma WrittenAll(config: map<string, Json>, package: map<string, Json>, join: Join, produced: map<string, Json>)
    requires NewMetadata(config, package, join) == Ok(produced) && FieldsOption(config) == Ok(None)
    ensures Written(config, package, join) == Ok(produced)
  {
  }

  lemma DemoPeopleAsAuthors(config: map<string, Json>)
    requires CamOption(config) == Ok(false)
    ensures People(config, DemoPackage) == Ok((Some([JObject(Alice), JObject(Isaac)]), None))
  {
    DemoPersons();
    assert [JObject(Alice)] + [JObject(Isaac)] == [JObject(Alice), JObject(Isaac)];
  }

  /** Without `fields`, `update` writes `new_metadata` whole. */
  lemma WrittenWhole(config: map<string, Json>, package: map<string, Json>, join: Join,
                     authors: Option<seq<Json>>, maintainers: Option<seq<Json>>, urls: map<string, Json>)
    requires "name" in package && People(config, package) == Ok((authors, maintainers))
    requires Urls(config, package, join) == Ok(urls) && FieldsOption(config) == Ok(None)
    ensures Written(config, package, join) == Ok(Assemble(package, authors, maintainers, urls))
  {
  }

  /** `test_contributors_as_authors`: with the option off, the author comes first
      and the contributor after. */
  lemma DemoAsAuthors(join: Join)
    ensures var w := Written(map["contributors-as-maintainers" := JBool(false)], DemoPackage, join);
      w.Ok? && "authors" in w.value && w.value["authors"] == JArray([JObject(Alice), JObject(Isaac)])
      && "maintainers" !in w.value
  {
    var config := map["contributors-as-maintainers" := JBool(false)];
    var authors := [JObject(Alice), JObject(Isaac)];
    OnlyCam(false);
    DemoPeopleAsAuthors(config);
    DemoUrlTable(config, join);
    assert "name" in DemoPackage;
    WrittenWhole(config, DemoPackage, join, Some(authors), None, DemoUrls);
    var m := Assemble(DemoPackage, Some(authors), None, DemoUrls);
    assert Lookup(m, "authors") == Some(JArray(authors)) && Lookup(m, "maintainers") == None;
  }
}
