# Repo manifest importer

This project models the importer of Google `repo` manifests in Git Workspace:
`RepoManifestFormat` in `gitwsrepo/repomanifestformat.py`. The model covers two operations:

- `is_compatible` accepts a manifest path exactly when its suffix is `.xml`.
- `load` walks the parsed XML document and builds the canonical `ManifestSpec`.
  - It builds the merged `<default>` values, one `Remote` per `<remote>`, and one
    `ProjectSpec` per top-level `<project>` together with that project's `copyfile`
    and `linkfile` children.
  - It examines only two levels of the document: the root's direct children, and
    the direct children of each top-level `<project>`. Anything below them is
    neither converted nor logged.
  - It logs each key once. The keys are:
    - every unrecognised attribute of a root child that is a `<default>`,
      `<remote>` or `<project>`, and of a `<copyfile>` or `<linkfile>` that is a
      direct child of a top-level `<project>`, under `<prefix>.<attr>`;
    - every unrecognised root child, under its tag;
    - every direct child of a top-level `<project>` other than `<copyfile>` and
      `<linkfile>`, under `project.<tag>`.
  - The attributes and children of an element logged by its tag are not examined.
  - It stops at the first record that fails validation and reports that record's
    element.

The model has four parts:

- **`Xml` and `Gitws`.** `Xml` models the parsed document. `Gitws` models the records
  `load` builds and the errors it raises.
  - Each record is the set of keyword arguments `load` passes to the constructor.
  - Whether a constructor accepts its arguments is a predicate in `Models`.
- **`RepoManifestFormat`, the functions.** These give the semantics of `load` step by
  step. There is one fold per loop of the source: over an element's attributes, over
  a `<project>`'s children, and over the root's children. `LoadResult` is the result
  of the whole call.
- **`RepoManifestFormat.Loader`.** This class holds the variables that `load`'s nested
  helpers share: the `defaults` dictionary and the `remotes`, `projects` and `ignored`
  lists.
  - Each helper is a method with the source's loop.
  - Each method is proved to produce exactly the next state of the step-by-step
    functions.
  - The top-level method `Load` runs the helpers and is proved to return
    `LoadResult`.
- **`LoadProperties`.** This module states what `load` computes without reference to
  the walk.
  - It gives reference definitions: the remotes, the projects, the failing elements,
    and the keys met in document order.
  - It proves the walk equal to those definitions.
  - It proves what the source promises: last value wins, one record per element,
    `recursive` always false, a log without duplicates in first-seen order, and errors
    that carry the smallest invalid element.

Where the code and the project's tests disagree, this model follows the code. The
test data expects three behaviours that the code does not implement:

- nested `<project>` elements flattened, with their names and paths joined;
- `groups` split into a tuple;
- `group_filters=("-notdefault",)` on the result.

The code does the following instead:

- A `groups` attribute of a top-level `<project>` is logged as `default.groups`
  (lines 95-99), like any other unrecognised project attribute.
- A nested `<project>` is logged as `project.project` and is otherwise dropped
  (lines 105-106), with its attributes and children unexamined.
  `NonFileChildOnlyLogged` states this.
- The `ManifestSpec` is built without `group_filters` (line 147).

## Model

| member | source | states |
|---|---|---|
| RepoManifestFormat.Suffix | gitwsrepo/repomanifestformat.py:45-47 | a non-empty suffix is a tail of the final path component that starts with `.`, has no other dot, has at least two characters and is shorter than the component (so a name whose only dot is its first character has none) |
| RepoManifestFormat.SuffixEmptyIff | gitwsrepo/repomanifestformat.py:45-47 | the suffix is empty exactly when the final path component is empty, ends in a dot, or has no dot after its first character; with `Suffix`'s contract this fixes the suffix completely |
| RepoManifestFormat.IsCompatible | gitwsrepo/repomanifestformat.py:45-47 | a path is compatible exactly when its final component ends in `.xml`, case-sensitively, after at least one other character |
| RepoManifestFormat.AddIgnoredRecordsOnce | gitwsrepo/repomanifestformat.py:120-123 | ignoring a key records it once: afterwards it is in the log, the old log is a prefix, at most one key is added, and a log without duplicates stays so |
| RepoManifestFormat.AfterProjectChildrenStops | gitwsrepo/repomanifestformat.py:100-108 | once building a file record has failed, the remaining children of the `<project>` are not visited |
| RepoManifestFormat.AfterChildrenStops | gitwsrepo/repomanifestformat.py:135-144 | once building a record has failed, the remaining children of the root are not visited |
| RepoManifestFormat.WrongRootMessage | gitwsrepo/repomanifestformat.py:132-133 | the wrong-root message quotes the actual root tag after `Root element is '` |
| RepoManifestFormat.Loader.constructor | gitwsrepo/repomanifestformat.py:61-64 | `load` starts with an empty defaults dictionary and empty remote, project and ignored lists |
| RepoManifestFormat.Loader.Ignore | gitwsrepo/repomanifestformat.py:120-123 | `_ignore` appends a key only if it is not already logged, changes nothing else, and keeps the log free of duplicates |
| RepoManifestFormat.Loader.ConvertDefault | gitwsrepo/repomanifestformat.py:68-73 | `_convert_default` stores `remote` and `revision` (later values overwrite earlier ones), logs every other attribute as `default.<attr>`, and leaves the lists alone |
| RepoManifestFormat.Loader.ConvertRemote | gitwsrepo/repomanifestformat.py:75-85 | `_convert_remote` builds the `Remote` from `name` and `fetch` (as `url-base`), logs other attributes as `remote.<attr>`, and appends the remote if valid; otherwise it reports the `<remote>` element and appends nothing |
| RepoManifestFormat.Loader.ConvertFile | gitwsrepo/repomanifestformat.py:110-118 | `_convert_file` keeps `src`/`dest`, logs other attributes as `<prefix>.<attr>`, and appends the `FileRef` if valid; otherwise it reports the file element |
| RepoManifestFormat.Loader.ConvertChildren | gitwsrepo/repomanifestformat.py:100-106 | the loop over a `<project>`'s children fills the copyfile and linkfile lists, logs any other child as `project.<tag>`, and stops at the first invalid file |
| RepoManifestFormat.Loader.ConvertProject | gitwsrepo/repomanifestformat.py:87-108 | `_convert_project` copies `name`, `path`, `remote` and `revision`, logs other attributes as `default.<attr>`, converts the children, and appends a non-recursive `ProjectSpec` if valid; otherwise it reports the failing element |
| RepoManifestFormat.Load | gitwsrepo/repomanifestformat.py:125-147 | `load` returns the manifest or the error, and the logged keys, that the step-by-step semantics give for the parse outcome; the log it returns never holds a key twice |
| LoadProperties.LastValueIsLastOccurrence | gitwsrepo/repomanifestformat.py:77-81 | a record field holds the value of the last attribute of that name, and is absent exactly when no attribute has that name |
| LoadProperties.UnknownKeysAreUnrecognisedAttributes | gitwsrepo/repomanifestformat.py:95-99 | the keys logged for an element's attributes are `<prefix>.<attr>` for exactly the attributes outside the recognised set |
| LoadProperties.DefaultsLastWriteWins | gitwsrepo/repomanifestformat.py:68-73 | only `remote` and `revision` are ever stored in the defaults; the last value given for each wins; other entries are kept |
| LoadProperties.DefaultsAfterConcat | gitwsrepo/repomanifestformat.py:137-138 | converting two `<default>` elements in turn is converting their attributes concatenated, so several `<default>` elements merge |
| LoadProperties.IgnoredLogIsDeduplicated | gitwsrepo/repomanifestformat.py:120-123 | after ignoring a sequence of keys, the log holds exactly the old keys and the new ones, keeps the old log as a prefix, and has no duplicates |
| LoadProperties.IgnoredInFirstSeenOrder | gitwsrepo/repomanifestformat.py:120-123 | the log lists keys in the order in which each was first met |
| LoadProperties.ProjectChildMatchesReference | gitwsrepo/repomanifestformat.py:100-106 | one child of a `<project>` adds its `FileRef` to the list its tag names, fails exactly when that record is invalid, and logs its keys |
| LoadProperties.ProjectChildrenMatchReference | gitwsrepo/repomanifestformat.py:100-118 | a `<project>`'s file lists are its `copyfile` and `linkfile` children in document order; the walk fails exactly when one is invalid, and it reports the first such child |
| LoadProperties.ChildMatchesReference | gitwsrepo/repomanifestformat.py:135-144 | one child of the root contributes its defaults, remote or project and its keys, and fails exactly when one of its records is invalid |
| LoadProperties.ChildrenFailureMatchesReference | gitwsrepo/repomanifestformat.py:135-144 | the walk over the root's children fails exactly when some record is invalid, and it reports the first invalid element in build order |
| LoadProperties.ChildrenRecordsMatchReference | gitwsrepo/repomanifestformat.py:135-142 | after a successful walk the remotes and projects are one record per `<remote>` and `<project>` child, in document order |
| LoadProperties.ChildrenDefaultsAndLogMatchReference | gitwsrepo/repomanifestformat.py:135-144 | after a successful walk the defaults are merged from every `<default>` and the log is every key met, deduplicated |
| LoadProperties.ProjectChildrenKeepLogNoDup | gitwsrepo/repomanifestformat.py:100-106 | converting a `<project>`'s children never logs a key twice, even when it fails |
| LoadProperties.ChildrenKeepLogNoDup | gitwsrepo/repomanifestformat.py:135-144 | walking the root's children never logs a key twice, even when it fails |
| LoadProperties.LoadRejectsBeforeConversion | gitwsrepo/repomanifestformat.py:125-133 | a missing file gives `ManifestNotFoundError`, a parse failure gives `ManifestError` with the parser's message, and a root other than `<manifest>` gives `ManifestError` naming the tag, all before anything is logged |
| LoadProperties.MergedDefaults | gitwsrepo/repomanifestformat.py:147 | `Defaults(**defaults)` has each field set to the last value given for it in any `<default>`, and absent otherwise |
| LoadProperties.LoadCorrect | gitwsrepo/repomanifestformat.py:135-147 | for a `<manifest>` root, `load` reports the first invalid element if there is one; otherwise it returns the manifest of the merged defaults and of one record per `<remote>` and `<project>` in document order, or the root's error if `Defaults` or `ManifestSpec` rejects it |
| LoadProperties.LoadLogsEachKeyOnce | gitwsrepo/repomanifestformat.py:120-144 | each key is logged at most once per `load` call; on success the log is every unknown attribute and tag met, deduplicated |
| LoadProperties.ProjectsNeverRecursive | gitwsrepo/repomanifestformat.py:90-94 | no project built from the root's children is recursive |
| LoadProperties.LoadedProjectsNeverRecursive | gitwsrepo/repomanifestformat.py:90-94 | every dependency of a loaded manifest has `recursive` false |
| LoadProperties.OneRecordPerElement | gitwsrepo/repomanifestformat.py:139-142 | the number of remotes and projects equals the number of `<remote>` and top-level `<project>` children |
| LoadProperties.UnknownTagOnlyLogged | gitwsrepo/repomanifestformat.py:143-144 | a root child with an unknown tag is logged under its bare tag and adds no record and no failure |
| LoadProperties.NonFileChildOnlyLogged | gitwsrepo/repomanifestformat.py:105-106 | a `<project>` child other than `copyfile`/`linkfile`, including a nested `<project>`, is logged as `project.<tag>` and adds no file and no failure |
| LoadProperties.FileFailuresAreInvalidFiles | gitwsrepo/repomanifestformat.py:117-118 | the failing children of a `<project>` are exactly its `copyfile`/`linkfile` children whose `FileRef` is invalid |
| LoadProperties.FailuresAreInvalidElements | gitwsrepo/repomanifestformat.py:150-156 | an error carries a `<remote>` or `<project>` whose record is invalid, or a file child of a `<project>` whose `FileRef` is invalid; every such element is among the failures |

## Left out

- XML parsing and file I/O (`ElementTree.parse`) are not modelled. The parse result is a parameter: the file is missing, the parser refused it with a message, or it returned the root element. Text, comments and tails of elements play no part.
- The validation rules of the `gitws` models `Defaults`, `Remote`, `ProjectSpec`, `FileRef` and `ManifestSpec` are not part of this model. Each constructor's acceptance is a predicate in `Models`. The record built is the keyword arguments passed, without the models' own defaults or coercions.
- `tostring(element).decode().strip()` is not modelled. A validation error carries the element itself rather than its serialisation.
- RepoManifestFormat.WrongRootMessage: quotes the tag between plain single quotes. Python's `repr` escaping of quotes and control characters in the tag is not modelled.
- `LOGGER.info` output is not modelled. The log is the `ignored` list, which receives exactly the keys that are logged.
- `save` and `IncompatibleFormatError` belong to the inherited `ManifestFormat` base class, which is not part of this model.
- `Path` normalisation is not modelled: a path is a string and its final component follows the last `/`. Trailing separators and `.`/`..` components are taken literally.
- RepoManifestFormat.Loader.ConvertFile: returns the new file list instead of appending to the caller's list object.
- The CLI (`gitwsrepo/_cli`) and the test helpers are not modelled.
- Nested-project flattening, `groups` splitting and `group_filters` are not modelled, because the code does not implement them (see the introduction).
