/** `NodeJSMetadataHook` of hatch_nodejs_version/metadata_source.py as an
    object: the option properties fill their caches on first use, and `update`
    builds the new metadata step by step and writes it into the caller's
    metadata in place. The package is given already loaded. */
module MetadataHook {
  import opened Wrappers
  import opened Json
  import opened MetadataParse
  import MetadataFacts

  /** The caller's `metadata` dict. */
  class ProjectMetadata {
    var entries: map<string, Json>

    constructor(entries: map<string, Json>)
      ensures this.entries == entries
    {
      this.entries := entries;
    }
  }

  class NodeJSMetadataHook {
    const config: map<string, Json>
    const join: Join
    var path: Option<string>
    var fields: Option<set<string>>
    var contributorsAsMaintainers: Option<bool>
    var homepageLabel: Option<string>
    var bugsLabel: Option<string>
    var repositoryLabel: Option<string>

    /** A filled cache holds what its option yields. */
    ghost predicate Valid()
      reads this
    {
      && (path.Some? ==> PathOption(config) == Ok(path.value))
      && (fields.Some? ==> FieldsOption(config) == Ok(fields))
      && (contributorsAsMaintainers.Some? ==> CamOption(config) == Ok(contributorsAsMaintainers.value))
      && (homepageLabel.Some? ==> HomepageLabel(config) == Ok(homepageLabel.value))
      && (bugsLabel.Some? ==> BugsLabel(config) == Ok(bugsLabel.value))
      && (repositoryLabel.Some? ==> RepositoryLabel(config) == Ok(repositoryLabel.value))
    }

    constructor(config: map<string, Json>, join: Join)
      ensures Valid()
      ensures this.config == config && this.join == join
      ensures path == None && fields == None && contributorsAsMaintainers == None
      ensures homepageLabel == None && bugsLabel == None && repositoryLabel == None
    {
      this.config := config;
      this.join := join;
      path := None;
      fields := None;
      contributorsAsMaintainers := None;
      homepageLabel := None;
      bugsLabel := None;
      repositoryLabel := None;
    }

    /** The `path` property. */
    method Path() returns (r: Result<string, MetadataError>)
      requires Valid()
      modifies this`path
      ensures Valid() && r == PathOption(config)
      ensures path == if r.Ok? then Some(r.value) else old(path)
    {
      if path.None? {
        var value := PathOption(config);
        if value.Err? {
          return value;
        }
        path := Some(value.value);
      }
      r := Ok(path.value);
    }

    /** The `fields` property: a list all of whose items are strings, as a set.
        A `None` result is not cached, so it is computed again next time. */
    method Fields() returns (r: Result<Option<set<string>>, MetadataError>)
      requires Valid()
      modifies this`fields
      ensures Valid() && r == FieldsOption(config)
      ensures fields == if r.Ok? && r.value.Some? then r.value else old(fields)
    {
      if fields.Some? {
        return Ok(fields);
      }
      if "fields" !in config || config["fields"] == JNull {
        return Ok(None);
      }
      if !config["fields"].JArray? {
        return Err(BadOption("fields"));
      }
      var items := config["fields"].items;
      var names: set<string> := {};
      var i := 0;
      while i < |items|
        invariant 0 <= i <= |items|
        invariant forall j | 0 <= j < i :: items[j].JString?
        invariant names == set j | 0 <= j < i :: items[j].s
      {
        if !items[i].JString? {
          return Err(BadOption("fields"));
        }
        names := names + {items[i].s};
        i := i + 1;
      }
      fields := Some(names);
      r := Ok(fields);
    }

    /** The `contributors-as-maintainers` property. */
    method ContributorsAsMaintainers() returns (r: Result<bool, MetadataError>)
      requires Valid()
      modifies this`contributorsAsMaintainers
      ensures Valid() && r == CamOption(config)
      ensures contributorsAsMaintainers == if r.Ok? then Some(r.value) else old(contributorsAsMaintainers)
    {
      if contributorsAsMaintainers.None? {
        var value := CamOption(config);
        if value.Err? {
          return value;
        }
        contributorsAsMaintainers := Some(value.value);
      }
      r := Ok(contributorsAsMaintainers.value);
    }

    /** The `homepage-label` property. */
    method HomepageLabelOption() returns (r: Result<string, MetadataError>)
      requires Valid()
      modifies this`homepageLabel
      ensures Valid() && r == HomepageLabel(config)
      ensures homepageLabel == if r.Ok? then Some(r.value) else old(homepageLabel)
    {
      if homepageLabel.None? {
        var value := HomepageLabel(config);
        if value.Err? {
          return value;
        }
        homepageLabel := Some(value.value);
      }
      r := Ok(homepageLabel.value);
    }

    /** The `bugs-label` property. */
    method BugsLabelOption() returns (r: Result<string, MetadataError>)
      requires Valid()
      modifies this`bugsLabel
      ensures Valid() && r == BugsLabel(config)
      ensures bugsLabel == if r.Ok? then Some(r.value) else old(bugsLabel)
    {
      if bugsLabel.None? {
        var value := BugsLabel(config);
        if value.Err? {
          return value;
        }
        bugsLabel := Some(value.value);
      }
      r := Ok(bugsLabel.value);
    }

    /** The `repository-label` property. */
    method RepositoryLabelOption() returns (r: Result<string, MetadataError>)
      requires Valid()
      modifies this`repositoryLabel
      ensures Valid() && r == RepositoryLabel(config)
      ensures repositoryLabel == if r.Ok? then Some(r.value) else old(repositoryLabel)
    {
      if repositoryLabel.None? {
        var value := RepositoryLabel(config);
        if value.Err? {
          return value;
        }
        repositoryLabel := Some(value.value);
      }
      r := Ok(repositoryLabel.value);
    }

    /** The `authors` and `maintainers` lists of `update`. */
    method CollectPeople(package: map<string, Json>) returns (r: Result<(Option<seq<Json>>, Option<seq<Json>>), MetadataError>)
      requires Valid()
      modifies this`contributorsAsMaintainers
      ensures Valid() && r == People(config, package)
    {
      var author := AuthorList(package);
      if author.Err? {
        return Err(author.error);
      }
      var authors := author.value;
      var maintainers: Option<seq<Json>> := None;
      if "contributors" in package {
        var items := ContributorItems(package["contributors"]);
        if items.Err? {
          return Err(items.error);
        }
        var contributors := ParseContributors(items.value);
        if contributors.Err? {
          return Err(contributors.error);
        }
        var asMaintainers := ContributorsAsMaintainers();
        if asMaintainers.Err? {
          return Err(asMaintainers.error);
        }
        if asMaintainers.value {
          maintainers := Some(contributors.value);
        } else {
          authors := Some(authors.GetOr([]) + contributors.value);
        }
      }
      r := Ok((authors, maintainers));
    }

    /** The `urls` table of `update`. */
    method CollectUrls(package: map<string, Json>) returns (r: Result<map<string, Json>, MetadataError>)
      requires Valid()
      modifies this`homepageLabel, this`bugsLabel, this`repositoryLabel
      ensures Valid() && r == Urls(config, package, join)
    {
      var urls: map<string, Json> := map[];
      if "homepage" in package {
        var key := HomepageLabelOption();
        if key.Err? {
          return Err(key.error);
        }
        urls := urls[key.value := package["homepage"]];
      }
      assert HomepageUrl(config, package) == Ok(urls);
      ghost var afterHomepage := urls;
      if "bugs" in package {
        var url := ParseBugs(package["bugs"]);
        if url.Err? {
          return Err(url.error);
        }
        if url.value != JNull {
          var key := BugsLabelOption();
          if key.Err? {
            return Err(key.error);
          }
          urls := urls[key.value := url.value];
        }
      }
      assert BugsUrl(config, package, afterHomepage) == Ok(urls);
      if "repository" in package {
        var url := ParseRepository(package["repository"], join);
        if url.Err? {
          return Err(url.error);
        }
        var key := RepositoryLabelOption();
        if key.Err? {
          return Err(key.error);
        }
        urls := urls[key.value := url.value];
      }
      r := Ok(urls);
    }

    /** `update`, given the loaded package: the produced keys that `fields`
        selects are written into `metadata`, and nothing else changes there.
        On an exception `metadata` is left as it was. */
    method Update(metadata: ProjectMetadata, package: map<string, Json>) returns (error: Option<MetadataError>)
      requires Valid()
      modifies this, metadata
      ensures Valid()
      ensures var written := Written(config, package, join);
        && (written.Ok? ==> error == None && metadata.entries == old(metadata.entries) + written.value)
        && (written.Err? ==> error == Some(written.error) && metadata.entries == old(metadata.entries))
    {
      if "name" !in package {
        return Some(MissingKey("name"));
      }
      var newMetadata := map["name" := package["name"]];
      var people := CollectPeople(package);
      if people.Err? {
        return Some(people.error);
      }
      var urls := CollectUrls(package);
      if urls.Err? {
        return Some(urls.error);
      }
      var (authors, maintainers) := people.value;
      newMetadata := AddEntries(newMetadata, package, authors, maintainers, urls.value);
      assert NewMetadata(config, package, join) == Ok(newMetadata);

      var selection := Fields();
      if selection.Err? {
        return Some(selection.error);
      }
      metadata.entries := metadata.entries + Select(newMetadata, selection.value);
      error := None;
    }
  }

  /** The entries `update` adds to `new_metadata` after `name`, one `if` at a time. */
  method AddEntries(newMetadata: map<string, Json>, package: map<string, Json>, authors: Option<seq<Json>>,
                    maintainers: Option<seq<Json>>, urls: map<string, Json>) returns (m: map<string, Json>)
    requires "name" in package && newMetadata == map["name" := package["name"]]
    ensures m == Assemble(package, authors, maintainers, urls)
  {
    m := newMetadata;
    ghost var m1 := Put(newMetadata, "authors", ArrayOf(authors));
    if authors.Some? {
      m := m["authors" := JArray(authors.value)];
    }
    assert m == m1;
    ghost var m2 := Put(m1, "maintainers", ArrayOf(maintainers));
    if maintainers.Some? {
      m := m["maintainers" := JArray(maintainers.value)];
    }
    assert m == m2;
    ghost var m3 := Put(m2, "keywords", Lookup(package, "keywords"));
    if "keywords" in package {
      m := m["keywords" := package["keywords"]];
    }
    assert m == m3;
    ghost var m4 := Put(m3, "description", Lookup(package, "description"));
    if "description" in package {
      m := m["description" := package["description"]];
    }
    assert m == m4;
    ghost var m5 := Put(m4, "license", Lookup(package, "license"));
    if "license" in package {
      m := m["license" := package["license"]];
    }
    assert m == m5;
    ghost var m6 := Put(m5, "urls", if urls != map[] then Some(JObject(urls)) else None);
    if urls != map[] {
      m := m["urls" := JObject(urls)];
    }
    assert m == m6;
  }

  /** `[self._parse_person(p) for p in items]`, one item at a time. */
  method ParseContributors(items: seq<Json>) returns (r: Result<seq<Json>, MetadataError>)
    ensures r == PersonList(items)
  {
    var people: seq<Json> := [];
    var i := 0;
    while i < |items|
      invariant 0 <= i <= |items|
      invariant PersonList(items[..i]) == Ok(people)
    {
      var person := ParsePerson(items[i]);
      assert items[..i + 1] == items[..i] + [items[i]];
      assert [items[i]][1..] == [];
      MetadataFacts.PersonListAppend(items[..i], [items[i]]);
      if person.Err? {
        MetadataFacts.PersonListAppend(items[..i + 1], items[i + 1..]);
        assert items[..i + 1] + items[i + 1..] == items;
        return Err(person.error);
      }
      assert PersonList([items[i]]) == Ok([JObject(person.value)] + []);
      assert [JObject(person.value)] + [] == [JObject(person.value)];
      people := people + [JObject(person.value)];
      i := i + 1;
    }
    assert items[..i] == items;
    r := Ok(people);
  }
}
