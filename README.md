# hatch-nodejs-version in Dafny

A model of the two plugin cores of hatch-nodejs-version. Each core is modelled with proofs about it.

**The version source** (`hatch_nodejs_version/version_source.py`). Two static converters translate between npm-style versions (`1.4.5-rc0+build`) and Python-style versions (`1.4.5rc0+build`). Each converter does three things:

- It anchors a verbose, case-insensitive regular expression over the whole input, with surrounding whitespace allowed.
- It raises `ValueError` naming the input when the match fails.
- Otherwise it joins the captured groups again.

**The metadata hook** (`hatch_nodejs_version/metadata_source.py`). It covers:

- the six lazily cached config options of `NodeJSMetadataHook`;
- `_parse_bugs`;
- `_parse_person`, with the author-string pattern `Name <email> (url)`;
- `_parse_repository`, with its `gist:`/`bitbucket:`/`gitlab:`/`github:` shorthands;
- `update`, which builds `new_metadata` from an already loaded `package.json` and writes the selected keys into the caller's `metadata`.

Modules:

| file | module | what it holds |
|---|---|---|
| wrappers.dfy | `Wrappers` | `Option` and `Result` |
| json.dfy | `Json` | the JSON values `json.load` yields |
| chars.dfy | `Chars` | character classes as Python's `re` applies them to a `str` (`\s`, `[0-9]`, `[A-Za-z]` under IGNORECASE), digit and whitespace scans, `$` |
| version_grammar.dfy | `VersionGrammar` | the captured record (`Version`, `Prerelease`) and, declaratively, the exact texts the two version patterns accept for a record |
| version_parse.dfy | `VersionParse` | deterministic recognisers for the two patterns, proved sound and complete against `VersionGrammar` |
| version_source.dfy | `VersionSource` | `node_version_to_python` and `python_version_to_node`, and their properties |
| version_vectors.dfy | `VersionVectors` | the version table and the rejected inputs of tests/test_version_config.py |
| author_pattern.dfy | `AuthorPattern` | `AUTHOR_PATTERN` as the backtracking search `re.match` performs |
| repository_pattern.dfy | `RepositoryPattern` | `REPOSITORY_PATTERN` and `REPOSITORY_TABLE` |
| metadata_parse.dfy | `MetadataParse` | the options, `_parse_bugs`, `_parse_person`, `_parse_repository` and `new_metadata` as functions of the config and the package |
| metadata_facts.dfy | `MetadataFacts` | what those functions promise |
| metadata_hook.dfy | `MetadataHook` | `NodeJSMetadataHook` as a class. Its option caches are fields, and `update` writes into a `ProjectMetadata` object in place |
| metadata_vectors.dfy | `MetadataVectors` | the demo package of tests/test_metadata_config.py |

How the model is built:

- Exceptions are `Err` values. Each function evaluates in Python's order, so the exception the code would raise first is the one returned.
- Numbers and labels in versions stay as the matched text, because the converters copy text.
- Python's `re` semantics are modelled where they matter:
  - IGNORECASE folds `K`/`k` to U+212A, `s` to U+017F, and `i` to U+0130 and U+0131;
  - `\s` is the `str.isspace` set;
  - `$` without MULTILINE also matches before a final newline;
  - the alternations are tried in order, and the lazy and greedy quantifiers in `AUTHOR_PATTERN` backtrack.

Where the code and its tests disagree, the model follows the code. `update` writes the url labels `"Homepage"`, `"Bug Tracker"` and `"Repository"` by default (hatch_nodejs_version/metadata_source.py:86, 99, 112). The expected metadata of tests/test_metadata_config.py:55-59 has them in lower case. The demo lemmas state the code's labels.

## Model

| member | source | states |
|---|---|---|
| VersionGrammar.LabelTablesAgree | hatch_nodejs_version/version_source.py:54 | the two `pre_l` alternations accept the same words, case-insensitively |
| VersionParse.ParseBuildTail | hatch_nodejs_version/version_source.py:27-38 | a parsed `+build` tail is a well-formed build group and is exactly the text that was consumed |
| VersionParse.BuildTailOf | hatch_nodejs_version/version_source.py:27-38 | every well-formed build group, written after `+`, is parsed back to itself |
| VersionParse.ParseAfterLabel | hatch_nodejs_version/version_source.py:24-25 | after the label: an optional separator, optional digits and an optional build group, which together make up the whole rest |
| VersionParse.AfterLabelOf | hatch_nodejs_version/version_source.py:55-56 | the converse: any separator, number and build group written out are recovered |
| VersionParse.MatchLabels | hatch_nodejs_version/version_source.py:23 | the label chosen is a case-insensitive match of one alternative, is a prefix of the input, and its continuation parses |
| VersionParse.MatchLabelsOf | hatch_nodejs_version/version_source.py:54 | whichever alternative a label matches, the ordered alternation finds that same label (so `pre`/`preview` and `a`/`alpha` resolve as backtracking does) |
| VersionParse.ReleaseSound | hatch_nodejs_version/version_source.py:16-20 | `major.minor.patch` are three non-empty digit runs joined by dots at the start of the text |
| VersionParse.ReleaseOf | hatch_nodejs_version/version_source.py:47-51 | three digit runs with dots, followed by a non-digit or nothing, are captured verbatim, leading zeros included |
| VersionParse.NodeCoreSound | hatch_nodejs_version/version_source.py:15-39 | what the Node recogniser accepts is a Node grammar text for the record it returns |
| VersionParse.NodeCoreComplete | hatch_nodejs_version/version_source.py:15-39 | every Node grammar text is accepted with its own record |
| VersionParse.PythonCoreSound | hatch_nodejs_version/version_source.py:44-71 | what the Python recogniser accepts is a Python grammar text (with `v?` and both separators) for the record it returns |
| VersionParse.PythonCoreComplete | hatch_nodejs_version/version_source.py:44-71 | every Python grammar text is accepted with its own record |
| VersionParse.NodeParseCorrect | hatch_nodejs_version/version_source.py:100-104 | the padded, anchored Node match succeeds with record `v` if and only if the input is whitespace, a Node text for `v`, and whitespace |
| VersionParse.PythonParseCorrect | hatch_nodejs_version/version_source.py:124-128 | the same if-and-only-if for the Python pattern |
| VersionParse.ParseNode | hatch_nodejs_version/version_source.py:100-104 | the padded, anchored `re.match` of NODE_VERSION_PATTERN: the whitespace the anchors absorb is stripped and the Node recogniser runs on the rest; what it accepts is stated by `NodeParseCorrect` |
| VersionParse.ParsePython | hatch_nodejs_version/version_source.py:124-128 | the same for PYTHON_VERSION_PATTERN; what it accepts is stated by `PythonParseCorrect` |
| VersionParse.NodeTailNeedsDash | hatch_nodejs_version/version_source.py:21-22 | after the patch number the Node pattern needs `-` or `+`; anything else is rejected |
| VersionParse.NodeTailLetterAfterDigit | hatch_nodejs_version/version_source.py:21-38 | no letter can follow a digit of the prerelease before `+`, so there is no post or dev segment |
| VersionParse.PythonTailLetterAfterDigit | hatch_nodejs_version/version_source.py:52-69 | the same for the Python pattern |
| VersionParse.PythonTailLettersOnly | hatch_nodejs_version/version_source.py:52-57 | a run of letters after the patch is accepted only when it is one of the labels |
| VersionSource.NodeVersionToPython | hatch_nodejs_version/version_source.py:97-119 | fails exactly when no record matches, with the input in the error; otherwise returns the release, the label and number without separators, and `+build` |
| VersionSource.PythonVersionToNode | hatch_nodejs_version/version_source.py:121-142 | fails exactly when no record matches, with the input in the error; otherwise returns the release, `-`, the label and number, and `+local` |
| VersionSource.RenderPython | hatch_nodejs_version/version_source.py:108-119 | the joined `parts` of `node_version_to_python`: the release, the label and number with no separator, and `+build`; `RenderedTexts` and `CanonicalRoundTrip` state what it produces |
| VersionSource.RenderNode | hatch_nodejs_version/version_source.py:132-142 | the joined `parts` of `python_version_to_node`: the release, `-`, the label and number, and `+local`; `RenderedTexts` and `CanonicalRoundTrip` state what it produces |
| VersionSource.RenderedTexts | hatch_nodejs_version/version_source.py:108-142 | each output is the grammar text of the other dialect with no separator and no `v` |
| VersionSource.NodeToPythonNormalises | hatch_nodejs_version/version_source.py:100-114 | surrounding whitespace and the separator between label and number do not reach the output |
| VersionSource.PythonToNodeNormalises | hatch_nodejs_version/version_source.py:124-138 | whitespace, a leading `v` and the separators around the label do not reach the output |
| VersionSource.CanonicalRoundTrip | hatch_nodejs_version/version_source.py:97-142 | for a canonical record, each converter turns one rendering into the other |
| VersionSource.NodeToPythonAccepted | hatch_nodejs_version/version_source.py:97-142 | every output of `node_version_to_python` is accepted by `python_version_to_node`, and converting back gives the same output |
| VersionSource.PythonToNodeAccepted | hatch_nodejs_version/version_source.py:97-142 | every output of `python_version_to_node` is accepted by `node_version_to_python`, and converting back gives the same output |
| VersionSource.NodeRejectsMissingDash | hatch_nodejs_version/version_source.py:21-22 | `M.m.p` followed by a label without a dash raises, naming the input |
| VersionSource.NodeRejectsPostRelease | hatch_nodejs_version/version_source.py:21-38 | a letter after a prerelease digit and before `+` makes `node_version_to_python` raise |
| VersionSource.PythonRejectsPostRelease | hatch_nodejs_version/version_source.py:52-69 | the same for `python_version_to_node` |
| VersionSource.PythonRejectsUnknownLabel | hatch_nodejs_version/version_source.py:52-57 | a letter word that is not a label, after the patch, makes `python_version_to_node` raise |
| VersionVectors.GoodPairsTable | tests/test_version_config.py:10-24 | the first eleven pairs of the table convert into each other in both directions |
| VersionVectors.GoodPair12 | tests/test_version_config.py:22 | the pair with build `build-1.0.0` converts both ways |
| VersionVectors.GoodPair13 | tests/test_version_config.py:23 | the pair with build `good-1_0.0` converts both ways |
| VersionVectors.PreviewPair | tests/test_version_config.py:21-23 | `1.4.5-preview0+b` and `1.4.5preview0+b` convert into each other for every well-formed build `b` |
| VersionVectors.MissingPatchRejected | tests/test_version_config.py:28-56 | `1.4` is rejected by both converters |
| VersionVectors.NodeRejectedTable | tests/test_version_config.py:43-56 | the remaining rejected Node inputs raise, naming the input |
| VersionVectors.PythonRejectedTable | tests/test_version_config.py:28-41 | the remaining rejected Python inputs raise, naming the input |
| AuthorPattern.SearchName | hatch_nodejs_version/metadata_source.py:14 | the lazy `name` group takes the shortest length at which the rest of the pattern matches, and no shorter length does |
| AuthorPattern.MatchAuthor | hatch_nodejs_version/metadata_source.py:14 | `re.match(AUTHOR_PATTERN, s)` and its `name` and `email` groups: the lazy name tried from the shortest length up, then the match with no name; `SearchName`, `MatchAuthorGroups`, `AuthorForm` and `UnclosedEmail` state what it captures |
| AuthorPattern.MatchAuthorGroups | hatch_nodejs_version/metadata_source.py:14 | a captured name is a prefix of the text free of `<` and `(`; a captured email is free of `>` and `(` and non-empty |
| AuthorPattern.AuthorForm | hatch_nodejs_version/metadata_source.py:14 | `name`, blanks, `<email>`, blanks and `(url)` (or the end) match, capturing exactly the name and the email |
| AuthorPattern.UnclosedEmail | hatch_nodejs_version/metadata_source.py:14 | a name followed by a `<` with no `>` anywhere after it does not match, whether or not a `(` follows |
| RepositoryPattern.KindsInTable | hatch_nodejs_version/metadata_source.py:15-21 | the prefix alternatives and the default are exactly the keys of `REPOSITORY_TABLE` |
| RepositoryPattern.MatchRepository | hatch_nodejs_version/metadata_source.py:15 | `re.match(REPOSITORY_PATTERN, s)` and its two groups, the prefixes tried in the alternation's order; `MatchRepositorySound`, `RepositoryPrefixed`, `RepositoryBare` and `RepositoryNewline` state what it captures |
| RepositoryPattern.MatchRepositorySound | hatch_nodejs_version/metadata_source.py:15 | a captured prefix is a table key the text starts with, and the identifier runs to the end with no newline |
| RepositoryPattern.RepositoryPrefixed | hatch_nodejs_version/metadata_source.py:15 | `kind:id`, with or without a final newline, captures `kind` and `id` |
| RepositoryPattern.RepositoryBare | hatch_nodejs_version/metadata_source.py:15 | text with no known prefix is captured whole as the identifier |
| RepositoryPattern.RepositoryNewline | hatch_nodejs_version/metadata_source.py:15 | a newline before the last character makes the match fail |
| RepositoryPattern.HostOf | hatch_nodejs_version/metadata_source.py:166-168 | no prefix resolves against the GitHub host, a prefix against its table entry |
| MetadataParse.StringOption | hatch_nodejs_version/metadata_source.py:37-50 | the default when the key is absent, the value when it is a string, a `TypeError` naming the option otherwise |
| MetadataParse.PathOption | hatch_nodejs_version/metadata_source.py:37-50 | the `path` option: a string, `package.json` when absent, as `StringOption` states |
| MetadataParse.HomepageLabel | hatch_nodejs_version/metadata_source.py:83-94 | the `homepage-label` option: a string, `Homepage` when absent, as `StringOption` states |
| MetadataParse.BugsLabel | hatch_nodejs_version/metadata_source.py:96-107 | the `bugs-label` option: a string, `Bug Tracker` when absent, as `StringOption` states |
| MetadataParse.RepositoryLabel | hatch_nodejs_version/metadata_source.py:109-120 | the `repository-label` option: a string, `Repository` when absent, as `StringOption` states |
| MetadataParse.CamOption | hatch_nodejs_version/metadata_source.py:69-81 | the default `True`, the value when it is a boolean, a `TypeError` exactly when it is present and not one |
| MetadataParse.FieldsOption | hatch_nodejs_version/metadata_source.py:52-67 | `None` when absent or null; a list of strings gives the set of its strings; anything else is a `TypeError` |
| MetadataParse.Select | hatch_nodejs_version/metadata_source.py:220-227 | without `fields` every produced key is kept; with it exactly the produced keys it lists, with their values |
| MetadataParse.Assemble | hatch_nodejs_version/metadata_source.py:175-218 | `new_metadata` holds the name, the people lists when set, `keywords`/`description`/`license` exactly when present, `urls` exactly when non-empty, and no other key |
| MetadataParse.ParseBugs | hatch_nodejs_version/metadata_source.py:130-137 | `_parse_bugs`; `ParseBugsOf` states what it returns and when it raises |
| MetadataParse.ParseAuthor | hatch_nodejs_version/metadata_source.py:148-158 | the pattern half of `_parse_person`: an author string through `AUTHOR_PATTERN`, keeping the name and the email; `PersonString` and `PersonInvalid` state what it returns |
| MetadataParse.ParsePerson | hatch_nodejs_version/metadata_source.py:139-158 | `_parse_person`; `PersonObject`, `PersonString`, `PersonInvalid` and `PersonKeys` state what it returns |
| MetadataParse.ParseRepository | hatch_nodejs_version/metadata_source.py:160-170 | `_parse_repository`; `RepositoryObject`, `RepositoryShorthand`, `RepositoryDefault` and `RepositoryRejected` state what it returns |
| MetadataParse.ContributorItems | hatch_nodejs_version/metadata_source.py:184 | what `for p in package["contributors"]` visits: a list's items, a string's characters; other scalars raise `TypeError` (`TypeErrorsNameType`) |
| MetadataParse.PersonList | hatch_nodejs_version/metadata_source.py:184 | the list comprehension over the contributors; `PersonListOf` and `PersonListAppend` state what it returns |
| MetadataParse.AuthorList | hatch_nodejs_version/metadata_source.py:180-181 | `[self._parse_person(package["author"])]` when there is an author |
| MetadataParse.People | hatch_nodejs_version/metadata_source.py:177-188 | `authors` and `maintainers` as `update` builds them; `ContributorsAsMaintainers`, `ContributorsAsAuthors`, `NoContributors` and `CamReadLazily` state what they are |
| MetadataParse.HomepageUrl | hatch_nodejs_version/metadata_source.py:207-208 | the homepage entry of `urls`, under the homepage label |
| MetadataParse.BugsUrl | hatch_nodejs_version/metadata_source.py:209-212 | the bugs entry of `urls`, added only when `_parse_bugs` gives a url |
| MetadataParse.RepositoryUrl | hatch_nodejs_version/metadata_source.py:213-214 | the repository entry of `urls`, under the repository label |
| MetadataParse.Urls | hatch_nodejs_version/metadata_source.py:205-214 | the `urls` table; `UrlsNonEmpty` and `BugsWithoutUrl` state what it holds |
| MetadataParse.NewMetadata | hatch_nodejs_version/metadata_source.py:173-218 | `new_metadata`, or the first exception `update` raises while building it; `NameProduced`, `CopiedWhenPresent` and `UrlsProduced` state what it holds |
| MetadataParse.Written | hatch_nodejs_version/metadata_source.py:220-227 | the entries `update` hands to `metadata.update`; `WrittenFields` states what they are |
| MetadataFacts.ParseBugsOf | hatch_nodejs_version/metadata_source.py:130-137 | a string is returned unchanged, a mapping gives its `url` or `None`, and the error cases are exactly the other types, with a `TypeError` naming the type |
| MetadataFacts.TypeErrorsNameType | hatch_nodejs_version/metadata_source.py:130-170 | a person, repository or contributors value of a type the code cannot match, index or iterate raises a `TypeError` naming that type |
| MetadataFacts.PersonObject | hatch_nodejs_version/metadata_source.py:139-146 | a mapping with `url` or `email` keeps `name` and `email`, never `url`, and needs `name` |
| MetadataFacts.PersonString | hatch_nodejs_version/metadata_source.py:147-158 | an author string `Name <email> (url)` yields the name and the email without brackets and drops the url, for a string or a `name` value |
| MetadataFacts.PersonInvalid | hatch_nodejs_version/metadata_source.py:151-153 | a string the pattern rejects raises `ValueError` with that string |
| MetadataFacts.UnclosedEmailRejected | hatch_nodejs_version/metadata_source.py:151-153 | `Alice <alice@example.com` is rejected |
| MetadataFacts.PersonKeys | hatch_nodejs_version/metadata_source.py:139-158 | a parsed person has `name` and at most `email` besides |
| MetadataFacts.RepositoryObject | hatch_nodejs_version/metadata_source.py:170 | a mapping gives its `url`, or a `KeyError` |
| MetadataFacts.RepositoryShorthand | hatch_nodejs_version/metadata_source.py:160-168 | `kind:id` is joined onto the host of `kind` |
| MetadataFacts.RepositoryDefault | hatch_nodejs_version/metadata_source.py:160-168 | text without a prefix is joined onto the GitHub host |
| MetadataFacts.RepositoryRejected | hatch_nodejs_version/metadata_source.py:162-164 | a string the pattern cannot match raises `ValueError` with that string |
| MetadataFacts.PersonListOf | hatch_nodejs_version/metadata_source.py:184 | the contributor list parses every item in order, or fails with the error of the first item that fails |
| MetadataFacts.PersonListAppend | hatch_nodejs_version/metadata_source.py:184 | parsing a concatenation is the concatenation of the parses, and the first error wins |
| MetadataFacts.NameProduced | hatch_nodejs_version/metadata_source.py:175 | `name` is required and always produced, and only the seven known keys can be produced |
| MetadataFacts.CopiedWhenPresent | hatch_nodejs_version/metadata_source.py:196-203 | `keywords`, `description` and `license` are produced exactly when present, unchanged |
| MetadataFacts.UrlsNonEmpty | hatch_nodejs_version/metadata_source.py:205-214 | the url table is non-empty exactly when there is a homepage, a bugs url or a repository |
| MetadataFacts.UrlsProduced | hatch_nodejs_version/metadata_source.py:216-218 | `urls` is produced exactly when there is a homepage, a bugs url or a repository |
| MetadataFacts.BugsWithoutUrl | hatch_nodejs_version/metadata_source.py:209-212 | a bugs mapping without `url` changes nothing in `new_metadata` |
| MetadataFacts.AssembleReads | hatch_nodejs_version/metadata_source.py:175-203 | `new_metadata` reads only `name`, `keywords`, `description` and `license` from the package |
| MetadataFacts.ContributorsAsMaintainers | hatch_nodejs_version/metadata_source.py:180-194 | with the option true, the contributors become `maintainers` and `authors` is just the author, when there is one |
| MetadataFacts.ContributorsAsAuthors | hatch_nodejs_version/metadata_source.py:180-194 | with the option false, `authors` is the author followed by the contributors in order, and there are no maintainers |
| MetadataFacts.NoContributors | hatch_nodejs_version/metadata_source.py:180-194 | without contributors there are no maintainers, and `authors` is set exactly when there is an author |
| MetadataFacts.CamReadLazily | hatch_nodejs_version/metadata_source.py:183-185 | without contributors the `contributors-as-maintainers` option is never read, so even a bad value raises nothing |
| MetadataFacts.WrittenFields | hatch_nodejs_version/metadata_source.py:220-227 | what `update` writes is the produced metadata, cut down to `fields` when it is set |
| MetadataHook.NodeJSMetadataHook.Path | hatch_nodejs_version/metadata_source.py:37-50 | the `path` option, computed once and then cached |
| MetadataHook.NodeJSMetadataHook.Fields | hatch_nodejs_version/metadata_source.py:52-67 | the `fields` option, built by a loop over the list and cached unless it is `None` |
| MetadataHook.NodeJSMetadataHook.ContributorsAsMaintainers | hatch_nodejs_version/metadata_source.py:69-81 | the `contributors-as-maintainers` option, computed once and then cached |
| MetadataHook.NodeJSMetadataHook.HomepageLabelOption | hatch_nodejs_version/metadata_source.py:83-94 | the `homepage-label` option, computed once and then cached |
| MetadataHook.NodeJSMetadataHook.BugsLabelOption | hatch_nodejs_version/metadata_source.py:96-107 | the `bugs-label` option, computed once and then cached |
| MetadataHook.NodeJSMetadataHook.RepositoryLabelOption | hatch_nodejs_version/metadata_source.py:109-120 | the `repository-label` option, computed once and then cached |
| MetadataHook.NodeJSMetadataHook.CollectPeople | hatch_nodejs_version/metadata_source.py:177-188 | the imperative construction of `authors` and `maintainers` equals `People`, errors included |
| MetadataHook.NodeJSMetadataHook.CollectUrls | hatch_nodejs_version/metadata_source.py:205-214 | the imperative construction of `urls` equals `Urls`, errors included |
| MetadataHook.NodeJSMetadataHook.Update | hatch_nodejs_version/metadata_source.py:172-227 | on success, `metadata` gains exactly the selected entries, and its other keys are untouched; on an exception it is unchanged |
| MetadataHook.AddEntries | hatch_nodejs_version/metadata_source.py:190-218 | the chain of `if`s that fills `new_metadata` gives `Assemble` |
| MetadataHook.ParseContributors | hatch_nodejs_version/metadata_source.py:184 | the list comprehension over the contributors, as a loop, gives the person list or the first error |
| MetadataVectors.DemoAll | tests/test_metadata_config.py:78-89 | the demo package with default options gives the expected metadata, under the code's url labels |
| MetadataVectors.DemoSubset | tests/test_metadata_config.py:103-116 | with `fields` naming one expected key, exactly that entry is written |
| MetadataVectors.DemoAsMaintainers | tests/test_metadata_config.py:118-130 | with the option true, the author is the author and the contributor is the maintainer |
| MetadataVectors.DemoAsAuthors | tests/test_metadata_config.py:132-146 | with the option false, the authors are the author then the contributor, and there are no maintainers |

## Left out

- Loading files is left out: `load_package_data`, `get_version_data`, `set_version` with its trailing-newline handling, `os.path` and `json`. The package and the config arrive as values.
- `urllib.parse.urljoin` is a parameter `join` of the model, because it is library code outside this repository. `_parse_repository` is proved to call it with the right host and identifier.
- `hatch_nodejs_version/hooks.py` (plugin registration), `tests/conftest.py` (fixtures), and the hatchling base classes `VersionSourceInterface` and `MetadataHookInterface` are not part of this model. Neither is `os.fspath`, nor the version source's own `path` property (hatch_nodejs_version/version_source.py:82-95).
- The exception messages are left out. Each error keeps the data the message names: the input, the option, the missing key, or the Python type of the value a `TypeError` rejects.
- JSON numbers are integers, because the hook only copies them. Floating point is not modelled.
- `contributors` given as a JSON object is left out. Python iterates such an object's keys in insertion order, and a Dafny `map` has no order, so the model returns a distinct `ContributorsObject` error instead.
- `contributors` given as a string is modelled as Python iterates it, one character at a time. A package whose top level is not an object is not modelled.
- Dict insertion order is not modelled. `new_metadata` and `urls` are Dafny maps, so the order in which `update` inserts keys is not observable.
