/** The pure half of `NodeJSMetadataHook` in hatch_nodejs_version/metadata_source.py:
    the config options as values, `_parse_bugs`, `_parse_person`,
    `_parse_repository`, and the metadata that `update` assembles from an
    already-loaded package.json. The exceptions the code raises are `Err`
    values, and evaluation follows Python's order so the first one wins. */
module MetadataParse {
  import opened Wrappers
  import opened Json
  import opened AuthorPattern
  import opened RepositoryPattern

  datatype MetadataError =
    /** `KeyError`: a key read with `[...]` is missing. */
    | MissingKey(key: string)
    /** `TypeError` from a package value of a JSON type the code cannot handle;
        `got` is the Python type the message names. */
    | WrongType(got: string)
    /** `ValueError`: an author string `AUTHOR_PATTERN` does not match. */
    | InvalidAuthor(author: string)
    /** `ValueError`: a repository string `REPOSITORY_PATTERN` does not match. */
    | InvalidRepository(repository: string)
    /** `TypeError`: a config option of the wrong type. */
    | BadOption(option: string)
    /** `contributors` given as an object; Python iterates its keys in insertion
        order, which a `map` does not keep. */
    | ContributorsObject

  /** `urllib.parse.urljoin`, which the model takes as given. */
  type Join = (string, string) -> string

  // ---------------------------------------------------------------------------
  // Config options

  /** `config.get(key, default)` for a string option. */
  function StringOption(config: map<string, Json>, key: string, default: string): (r: Result<string, MetadataError>)
    ensures key !in config ==> r == Ok(default)
    ensures key in config ==> (r.Ok? <==> config[key].JString?)
    ensures key in config && r.Ok? ==> r.value == config[key].s
    ensures r.Err? ==> r.error == BadOption(key)
  {
    if key !in config then Ok(default)
    else match config[key]
      case JString(s) => Ok(s)
      case _ => Err(BadOption(key))
  }

  function PathOption(config: map<string, Json>): Result<string, MetadataError> {
    StringOption(config, "path", "package.json")
  }

  function HomepageLabel(config: map<string, Json>): Result<string, MetadataError> {
    StringOption(config, "homepage-label", "Homepage")
  }

  function BugsLabel(config: map<string, Json>): Result<string, MetadataError> {
    StringOption(config, "bugs-label", "Bug Tracker")
  }

  function RepositoryLabel(config: map<string, Json>): Result<string, MetadataError> {
    StringOption(config, "repository-label", "Repository")
  }

  /** `contributors-as-maintainers`: a boolean, `True` when absent. */
  function CamOption(config: map<string, Json>): (r: Result<bool, MetadataError>)
    ensures "contributors-as-maintainers" !in config ==> r == Ok(true)
    ensures r.Ok? && "contributors-as-maintainers" in config ==> config["contributors-as-maintainers"] == JBool(r.value)
    ensures r.Err? <==> "contributors-as-maintainers" in config && !config["contributors-as-maintainers"].JBool?
    ensures r.Err? ==> r.error == BadOption("contributors-as-maintainers")
  {
    if "contributors-as-maintainers" !in config then Ok(true)
    else match config["contributors-as-maintainers"]
      case JBool(b) => Ok(b)
      case _ => Err(BadOption("contributors-as-maintainers"))
  }

  predicate AllStrings(items: seq<Json>) {
    forall i | 0 <= i < |items| :: items[i].JString?
  }

  /** `fields`: absent or null means every key; otherwise a list of strings,
      kept as a set. */
  function FieldsOption(config: map<string, Json>): (r: Result<Option<set<string>>, MetadataError>)
    ensures r == Ok(None) <==> "fields" !in config || config["fields"] == JNull
    ensures r.Ok? && r.value.Some? ==>
      config["fields"].JArray? && forall f :: f in r.value.value <==> JString(f) in config["fields"].items
    ensures r.Err? <==>
      "fields" in config && config["fields"] != JNull && !(config["fields"].JArray? && AllStrings(config["fields"].items))
    ensures r.Err? ==> r.error == BadOption("fields")
  {
    if "fields" !in config then Ok(None)
    else match config["fields"]
      case JNull => Ok(None)
      case JArray(items) =>
        if AllStrings(items) then Ok(Some(set i | 0 <= i < |items| :: items[i].s))
        else Err(BadOption("fields"))
      case _ => Err(BadOption("fields"))
  }

  // ---------------------------------------------------------------------------
  // `_parse_bugs`, `_parse_person`, `_parse_repository`

  /** `_parse_bugs`: a string is the url; an object gives its `"url"`, or null
      (Python's `None`) when it has none. Membership on a list is legal, but
      indexing it with `"url"` is not; other values cannot be searched. */
  function ParseBugs(bugs: Json): Result<Json, MetadataError> {
    match bugs
    case JString(_) => Ok(bugs)
    case JObject(m) => if "url" in m then Ok(m["url"]) else Ok(JNull)
    case JArray(items) => if JString("url") in items then Err(WrongType(TypeName(bugs))) else Ok(JNull)
    case _ => Err(WrongType(TypeName(bugs)))
  }

  function OptString(s: Option<string>): Json {
    if s.Some? then JString(s.value) else JNull
  }

  /** The person `_parse_person` builds from a name and an optional email. */
  function Person(name: Json, email: Option<Json>): map<string, Json> {
    map["name" := name] + (if email.Some? then map["email" := email.value] else map[])
  }

  /** An author string through `AUTHOR_PATTERN`; the url group is dropped. */
  function ParseAuthor(author: Json): Result<map<string, Json>, MetadataError> {
    match author
    case JString(s) =>
      (match MatchAuthor(s)
       case None => Err(InvalidAuthor(s))
       case Some((name, email)) =>
         Ok(Person(OptString(name), if email.Some? then Some(JString(email.value)) else None)))
    case _ => Err(WrongType(TypeName(author)))
  }

  /** `_parse_person`: an object with a `url` or an `email` is copied (its name
      and email, never its url); any other object gives its `name` to the
      author-string parser, as does a non-object. */
  function ParsePerson(person: Json): Result<map<string, Json>, MetadataError> {
    match person
    case JObject(m) =>
      if "name" !in m then Err(MissingKey("name"))
      else if "url" in m || "email" in m then
        Ok(Person(m["name"], if "email" in m then Some(m["email"]) else None))
      else ParseAuthor(m["name"])
    case _ => ParseAuthor(person)
  }

  /** `_parse_repository`: a string is matched against `REPOSITORY_PATTERN` and
      joined onto its host; anything else is indexed with `"url"`. */
  function ParseRepository(repository: Json, join: Join): Result<Json, MetadataError> {
    match repository
    case JString(s) =>
      MatchRepositorySound(s);
      (match MatchRepository(s)
       case None => Err(InvalidRepository(s))
       case Some((kind, id)) => Ok(JString(join(HostOf(kind), id))))
    case JObject(m) => if "url" in m then Ok(m["url"]) else Err(MissingKey("url"))
    case _ => Err(WrongType(TypeName(repository)))
  }

  // ---------------------------------------------------------------------------
  // `update`

  /** What `for p in package["contributors"]` visits: the items of a list, the
      one-character strings of a string. */
  function ContributorItems(contributors: Json): Result<seq<Json>, MetadataError> {
    match contributors
    case JArray(items) => Ok(items)
    case JString(s) => Ok(seq(|s|, i requires 0 <= i < |s| => JString([s[i]])))
    case JObject(_) => Err(ContributorsObject)
    case _ => Err(WrongType(TypeName(contributors)))
  }

  /** `[self._parse_person(p) for p in items]`: stops at the first failure. */
  function PersonList(items: seq<Json>): Result<seq<Json>, MetadataError> {
    if items == [] then Ok([])
    else
      var p :- ParsePerson(items[0]);
      var rest :- PersonList(items[1..]);
      Ok([JObject(p)] + rest)
  }

  /** The `authors` and `maintainers` lists `update` builds (None: not set). */
  function People(config: map<string, Json>, package: map<string, Json>): Result<(Option<seq<Json>>, Option<seq<Json>>), MetadataError> {
    var authors :- AuthorList(package);
    if "contributors" !in package then Ok((authors, None))
    else
      var items :- ContributorItems(package["contributors"]);
      var contributors :- PersonList(items);
      var asMaintainers :- CamOption(config);
      if asMaintainers then Ok((authors, Some(contributors)))
      else Ok((Some(authors.GetOr([]) + contributors), None))
  }

  function AuthorList(package: map<string, Json>): Result<Option<seq<Json>>, MetadataError> {
    if "author" in package then
      var p :- ParsePerson(package["author"]);
      Ok(Some([JObject(p)]))
    else Ok(None)
  }

  /** The `urls` table, built homepage, bugs, repository; a label read only
      when its entry is written, after the value it labels. */
  function Urls(config: map<string, Json>, package: map<string, Json>, join: Join): Result<map<string, Json>, MetadataError> {
    var u1 :- HomepageUrl(config, package);
    var u2 :- BugsUrl(config, package, u1);
    RepositoryUrl(config, package, join, u2)
  }

  function HomepageUrl(config: map<string, Json>, package: map<string, Json>): Result<map<string, Json>, MetadataError> {
    if "homepage" in package then
      var key :- HomepageLabel(config);
      Ok(map[key := package["homepage"]])
    else Ok(map[])
  }

  function BugsUrl(config: map<string, Json>, package: map<string, Json>, urls: map<string, Json>): Result<map<string, Json>, MetadataError> {
    if "bugs" in package then
      var url :- ParseBugs(package["bugs"]);
      if url == JNull then Ok(urls)
      else
        var key :- BugsLabel(config);
        Ok(urls[key := url])
    else Ok(urls)
  }

  function RepositoryUrl(config: map<string, Json>, package: map<string, Json>, join: Join, urls: map<string, Json>): Result<map<string, Json>, MetadataError> {
    if "repository" in package then
      var url :- ParseRepository(package["repository"], join);
      var key :- RepositoryLabel(config);
      Ok(urls[key := url])
    else Ok(urls)
  }

  function Lookup(m: map<string, Json>, key: string): Option<Json> {
    if key in m then Some(m[key]) else None
  }

  /** `if ...: new_metadata[key] = value`. */
  function Put(m: map<string, Json>, key: string, value: Option<Json>): (r: map<string, Json>)
    ensures forall k :: Lookup(r, k) == if k == key && value.Some? then value else Lookup(m, k)
  {
    if value.Some? then m[key := value.value] else m
  }

  function ArrayOf(list: Option<seq<Json>>): Option<Json> {
    if list.Some? then Some(JArray(list.value)) else None
  }

  /** `new_metadata` after the name and the people lists. */
  function PeopleEntries(package: map<string, Json>, authors: Option<seq<Json>>, maintainers: Option<seq<Json>>): (r: map<string, Json>)
    requires "name" in package
    ensures Lookup(r, "name") == Some(package["name"])
    ensures Lookup(r, "authors") == ArrayOf(authors)
    ensures Lookup(r, "maintainers") == ArrayOf(maintainers)
    ensures r.Keys <= {"name", "authors", "maintainers"}
  {
    var m := map["name" := package["name"]];
    var m := Put(m, "authors", ArrayOf(authors));
    Put(m, "maintainers", ArrayOf(maintainers))
  }

  /** `new_metadata` from its parts, in the order `update` writes them. */
  function Assemble(package: map<string, Json>, authors: Option<seq<Json>>, maintainers: Option<seq<Json>>, urls: map<string, Json>): (r: map<string, Json>)
    requires "name" in package
    ensures Lookup(r, "name") == Some(package["name"])
    ensures Lookup(r, "authors") == ArrayOf(authors)
    ensures Lookup(r, "maintainers") == ArrayOf(maintainers)
    ensures Lookup(r, "keywords") == Lookup(package, "keywords")
    ensures Lookup(r, "description") == Lookup(package, "description")
    ensures Lookup(r, "license") == Lookup(package, "license")
    ensures Lookup(r, "urls") == if urls != map[] then Some(JObject(urls)) else None
    ensures r.Keys <= {"name", "authors", "maintainers", "keywords", "description", "license", "urls"}
  {
    var p := PeopleEntries(package, authors, maintainers);
    var u := if urls != map[] then Some(JObject(urls)) else None;
    CopyKeepsPeople(p, package);
    UrlsKeepOthers(CopyEntries(p, package), u);
    Put(CopyEntries(p, package), "urls", u)
  }

  /** Copying the package's keys leaves the people entries as they were. */
  lemma CopyKeepsPeople(p: map<string, Json>, package: map<string, Json>)
    requires p.Keys <= {"name", "authors", "maintainers"}
    ensures var c := CopyEntries(p, package);
      && Lookup(c, "name") == Lookup(p, "name")
      && Lookup(c, "authors") == Lookup(p, "authors")
      && Lookup(c, "maintainers") == Lookup(p, "maintainers")
      && c.Keys <= {"name", "authors", "maintainers", "keywords", "description", "license"}
  {
  }

  /** Writing `urls` last leaves every other entry as it was. */
  lemma UrlsKeepOthers(c: map<string, Json>, u: Option<Json>)
    requires c.Keys <= {"name", "authors", "maintainers", "keywords", "description", "license"}
    ensures var r := Put(c, "urls", u);
      && Lookup(r, "urls") == u
      && (forall k | k != "urls" :: Lookup(r, k) == Lookup(c, k))
      && r.Keys <= {"name", "authors", "maintainers", "keywords", "description", "license", "urls"}
  {
  }

  /** `new_metadata` after the keys copied when present. */
  function CopyEntries(m: map<string, Json>, package: map<string, Json>): (r: map<string, Json>)
    requires "keywords" !in m && "description" !in m && "license" !in m
    ensures Lookup(r, "keywords") == Lookup(package, "keywords")
    ensures Lookup(r, "description") == Lookup(package, "description")
    ensures Lookup(r, "license") == Lookup(package, "license")
    ensures forall k | k != "keywords" && k != "description" && k != "license" :: Lookup(r, k) == Lookup(m, k)
    ensures r.Keys <= m.Keys + {"keywords", "description", "license"}
  {
    var m := Put(m, "keywords", Lookup(package, "keywords"));
    var m := Put(m, "description", Lookup(package, "description"));
    Put(m, "license", Lookup(package, "license"))
  }

  /** `new_metadata`: everything `update` produces before filtering. */
  function NewMetadata(config: map<string, Json>, package: map<string, Json>, join: Join): Result<map<string, Json>, MetadataError> {
    if "name" !in package then Err(MissingKey("name"))
    else
      var people :- People(config, package);
      var urls :- Urls(config, package, join);
      Ok(Assemble(package, people.0, people.1, urls))
  }

  /** The dict comprehension handed to `metadata.update`. */
  function Select(produced: map<string, Json>, fields: Option<set<string>>): (r: map<string, Json>)
    ensures fields.None? ==> r.Keys == produced.Keys
    ensures fields.Some? ==> r.Keys == produced.Keys * fields.value
    ensures forall k | k in r :: k in produced && r[k] == produced[k]
  {
    if fields.None? then produced
    else map k | k in produced && k in fields.value :: produced[k]
  }

  /** What `update` writes into `metadata`, or the exception it raises first. */
  function Written(config: map<string, Json>, package: map<string, Json>, join: Join): Result<map<string, Json>, MetadataError> {
    var produced :- NewMetadata(config, package, join);
    var fields :- FieldsOption(config);
    Ok(Select(produced, fields))
  }
}
