/**
  The importer of Google's `repo` manifests (`RepoManifestFormat`): the
  compatibility test on a path's suffix, and `load`, which walks the parsed XML
  document and builds the canonical manifest.

  The functions below are the semantics of `load`, one per helper of the
  source, each a fold over the attributes or children it loops over.  The
  class `Loader` holds the state those helpers share (the `defaults`
  dictionary and the `remotes`, `projects` and `ignored` lists) and its
  methods are proved to compute exactly these functions; `Load` runs them.
*/
module RepoManifestFormat {
  import opened Wrappers
  import opened Xml
  import opened Gitws

  // ---------------------------------------------------------------------
  // Compatibility: the path's suffix
  // ---------------------------------------------------------------------

  /** Index of the last occurrence of `c` in `s`, or -1 (Python's `rfind`). */
  function LastIndexOf(s: string, c: char): (i: int)
    ensures -1 <= i < |s|
    ensures i >= 0 ==> s[i] == c
    ensures forall j | i < j < |s| :: s[j] != c
    decreases |s|
  {
    if s == [] then -1
    else if s[|s| - 1] == c then |s| - 1
    else LastIndexOf(s[..|s| - 1], c)
  }

  /** The final component of a `/`-separated path. */
  function FileName(path: string): (name: string)
    ensures '/' !in name
    ensures |name| <= |path| && name == path[|path| - |name|..]
    ensures |name| < |path| ==> path[|path| - |name| - 1] == '/'
  {
    path[LastIndexOf(path, '/') + 1..]
  }

  /** `PurePath.suffix`: the final component's extension from its last dot,
      provided that dot is neither the first nor the last character. */
  function Suffix(path: string): (suffix: string)
    ensures suffix != [] ==> suffix[0] == '.' && 2 <= |suffix| < |FileName(path)|
    ensures suffix != [] ==> suffix == FileName(path)[|FileName(path)| - |suffix|..]
    ensures forall j | 0 < j < |suffix| :: suffix[j] != '.'
  {
    var name := FileName(path);
    var i := LastIndexOf(name, '.');
    if 0 < i < |name| - 1 then name[i..] else ""
  }

  /** The suffix is empty exactly when the final component is empty, ends in
      a dot, or has no dot after its first character. */
  lemma SuffixEmptyIff(path: string)
    ensures Suffix(path) == [] <==>
      var name := FileName(path); name == [] || name[|name| - 1] == '.' || '.' !in name[1..]
  {
    var name := FileName(path);
    var i := LastIndexOf(name, '.');
    assert Suffix(path) == if 0 < i < |name| - 1 then name[i..] else "";
    var rest := if name == [] then [] else name[1..];
    if 0 < i < |name| - 1 {
      assert rest[i - 1] == '.';
      assert name[|name| - 1] != '.';
      assert |name[i..]| > 0;
    } else if i <= 0 && name != [] {
      forall j | 0 <= j < |rest| ensures rest[j] != '.' {
        assert rest[j] == name[j + 1];
      }
    }
  }

  /** `is_compatible`: the manifest file is an `.xml` file (case-sensitive),
      that is, its final component ends in `.xml` after at least one other
      character. */
  function IsCompatible(path: string): (ok: bool)
    ensures ok <==> var name := FileName(path); |name| > 4 && name[|name| - 4..] == ".xml"
  {
    XmlExtension(FileName(path));
    Suffix(path) == ".xml"
  }

  lemma XmlExtension(name: string)
    ensures (var i := LastIndexOf(name, '.'); 0 < i < |name| - 1 && name[i..] == ".xml")
        <==> |name| > 4 && name[|name| - 4..] == ".xml"
  {
    var n := |name|;
    var i := LastIndexOf(name, '.');
    if 0 < i < n - 1 && name[i..] == ".xml" {
      assert |name[i..]| == n - i == 4;
    }
    if n > 4 && name[n - 4..] == ".xml" {
      XmlTail(name);
      assert i == n - 4;
    }
  }

  /** The characters of a name ending in `.xml`. */
  lemma XmlTail(name: string)
    requires |name| >= 4 && name[|name| - 4..] == ".xml"
    ensures name[|name| - 4] == '.' && name[|name| - 3] == 'x'
    ensures name[|name| - 2] == 'm' && name[|name| - 1] == 'l'
  {
    var n := |name|;
    var tail := name[n - 4..];
    assert tail[0] == name[n - 4] && tail[1] == name[n - 3];
    assert tail[2] == name[n - 2] && tail[3] == name[n - 1];
  }

  // ---------------------------------------------------------------------
  // The ignored-key log
  // ---------------------------------------------------------------------

  predicate NoDup<T(==)>(s: seq<T>)
  {
    forall i, j | 0 <= i < j < |s| :: s[i] != s[j]
  }

  /** `_ignore`: record `key` unless it is already recorded. */
  function AddIgnored(ignored: seq<string>, key: string): seq<string>
  {
    if key in ignored then ignored else ignored + [key]
  }

  /** Ignoring a key records it once: the old log is kept as a prefix, at
      most the key is added, and no key is ever recorded twice. */
  lemma AddIgnoredRecordsOnce(ignored: seq<string>, key: string)
    ensures var r := AddIgnored(ignored, key);
      && key in r
      && (forall k :: k in r <==> k in ignored || k == key)
      && |ignored| <= |r| <= |ignored| + 1 && r[..|ignored|] == ignored
      && (NoDup(ignored) ==> NoDup(r))
  {
    if key !in ignored {
      var r := ignored + [key];
      assert r[..|ignored|] == ignored;
      assert forall i | 0 <= i < |ignored| :: r[i] == ignored[i] && r[i] != key;
    }
  }

  /** `_ignore` applied to each of `keys` in turn. */
  function AddAllIgnored(ignored: seq<string>, keys: seq<string>): seq<string>
    decreases |keys|
  {
    if keys == [] then ignored
    else AddIgnored(AddAllIgnored(ignored, keys[..|keys| - 1]), keys[|keys| - 1])
  }

  /** Ignoring `a` and then `b` is ignoring `a + b`. */
  lemma {:induction false} AddAllIgnoredConcat(ignored: seq<string>, a: seq<string>, b: seq<string>)
    ensures AddAllIgnored(ignored, a + b) == AddAllIgnored(AddAllIgnored(ignored, a), b)
    decreases |b|
  {
    if b == [] {
      assert a + b == a;
    } else {
      assert (a + b)[..|a + b| - 1] == a + b[..|b| - 1];
      AddAllIgnoredConcat(ignored, a, b[..|b| - 1]);
    }
  }

  // ---------------------------------------------------------------------
  // Attributes
  // ---------------------------------------------------------------------

  /** The value of the last attribute called `name`, as a dictionary filled
      attribute by attribute holds it. */
  function LastValue(attrs: seq<Attr>, name: string): Option<string>
    decreases |attrs|
  {
    if attrs == [] then None
    else if attrs[|attrs| - 1].0 == name then Some(attrs[|attrs| - 1].1)
    else LastValue(attrs[..|attrs| - 1], name)
  }

  /** One attribute more. */
  lemma LastValueStep(attrs: seq<Attr>, name: string, i: nat)
    requires i < |attrs|
    ensures LastValue(attrs[..i + 1], name)
         == if attrs[i].0 == name then Some(attrs[i].1) else LastValue(attrs[..i], name)
  {
    assert attrs[..i + 1][..i] == attrs[..i];
  }

  /** The ignore keys `prefix.<attr>` of the attributes not in `known`, in
      document order. */
  function UnknownKeys(prefix: string, known: set<string>, attrs: seq<Attr>): seq<string>
    decreases |attrs|
  {
    if attrs == [] then []
    else
      var name := attrs[|attrs| - 1].0;
      UnknownKeys(prefix, known, attrs[..|attrs| - 1]) + (if name in known then [] else [prefix + "." + name])
  }

  /** One attribute more contributes its own key, if it is unknown. */
  lemma UnknownKeysStep(prefix: string, known: set<string>, attrs: seq<Attr>, i: nat)
    requires i < |attrs|
    ensures UnknownKeys(prefix, known, attrs[..i + 1])
         == UnknownKeys(prefix, known, attrs[..i]) + (if attrs[i].0 in known then [] else [prefix + "." + attrs[i].0])
  {
    assert attrs[..i + 1][..i] == attrs[..i];
  }

  /** Logging the keys of one attribute more. */
  lemma IgnoredStep(ignored: seq<string>, prefix: string, known: set<string>, attrs: seq<Attr>, i: nat)
    requires i < |attrs|
    ensures AddAllIgnored(ignored, UnknownKeys(prefix, known, attrs[..i + 1]))
         == if attrs[i].0 in known then AddAllIgnored(ignored, UnknownKeys(prefix, known, attrs[..i]))
            else AddIgnored(AddAllIgnored(ignored, UnknownKeys(prefix, known, attrs[..i])), prefix + "." + attrs[i].0)
  {
    UnknownKeysStep(prefix, known, attrs, i);
    var more := if attrs[i].0 in known then [] else [prefix + "." + attrs[i].0];
    AddAllIgnoredConcat(ignored, UnknownKeys(prefix, known, attrs[..i]), more);
    if more != [] {
      assert more[..0] == [];
    }
  }

  const DefaultKeys: set<string> := {"remote", "revision"}
  const RemoteKeys: set<string> := {"name", "fetch"}
  const ProjectKeys: set<string> := {"name", "path", "remote", "revision"}
  const FileKeys: set<string> := {"src", "dest"}

  /** `_convert_default` on the `defaults` dictionary: stores `remote` and
      `revision`, each overwriting what an earlier attribute or element put. */
  function DefaultsAfter(defaults: map<string, string>, attrs: seq<Attr>): map<string, string>
    decreases |attrs|
  {
    if attrs == [] then defaults
    else
      var d := DefaultsAfter(defaults, attrs[..|attrs| - 1]);
      var (name, value) := attrs[|attrs| - 1];
      if name in DefaultKeys then d[name := value] else d
  }

  /** One attribute more of a `<default>`. */
  lemma DefaultsStep(defaults: map<string, string>, attrs: seq<Attr>, i: nat)
    requires i < |attrs|
    ensures DefaultsAfter(defaults, attrs[..i + 1])
         == var d := DefaultsAfter(defaults, attrs[..i]);
            if attrs[i].0 in DefaultKeys then d[attrs[i].0 := attrs[i].1] else d
  {
    assert attrs[..i + 1][..i] == attrs[..i];
  }

  /** `Defaults(**defaults)`. */
  function DefaultsOf(defaults: map<string, string>): Defaults
  {
    Defaults(if "remote" in defaults then Some(defaults["remote"]) else None,
             if "revision" in defaults then Some(defaults["revision"]) else None)
  }

  /** `Remote(**remote)`: `name` as is, `fetch` as `url-base`. */
  function RemoteOf(attrs: seq<Attr>): Remote
  {
    Remote(LastValue(attrs, "name"), LastValue(attrs, "fetch"))
  }

  /** `FileRef(**file)`. */
  function FileRefOf(attrs: seq<Attr>): FileRef
  {
    FileRef(LastValue(attrs, "src"), LastValue(attrs, "dest"))
  }

  // ---------------------------------------------------------------------
  // The conversion, step by step
  // ---------------------------------------------------------------------

  /** The state the helpers of `load` share. */
  datatype State = State(
    defaults: map<string, string>,
    remotes: seq<Remote>,
    projects: seq<ProjectSpec>,
    ignored: seq<string>)

  const Initial := State(map[], [], [], [])

  /** A state, and the element whose construction raised a validation error
      if one did. */
  datatype Progress = Progress(state: State, failed: Option<Element>)

  /** The lists being filled while a `<project>`'s children are converted. */
  datatype FileProgress = FileProgress(
    copyfiles: seq<FileRef>,
    linkfiles: seq<FileRef>,
    ignored: seq<string>,
    failed: Option<Element>)

  function AfterDefault(st: State, e: Element): State
  {
    st.(defaults := DefaultsAfter(st.defaults, e.attrs),
        ignored := AddAllIgnored(st.ignored, UnknownKeys("default", DefaultKeys, e.attrs)))
  }

  function AfterRemote(m: Models, st: State, e: Element): Progress
  {
    var ignored := AddAllIgnored(st.ignored, UnknownKeys("remote", RemoteKeys, e.attrs));
    var remote := RemoteOf(e.attrs);
    if m.remote(remote) then Progress(st.(remotes := st.remotes + [remote], ignored := ignored), None)
    else Progress(st.(ignored := ignored), Some(e))
  }

  /** The tags of the `<project>` children that `_convert_file` handles. */
  predicate IsFileTag(tag: string)
  {
    tag == "copyfile" || tag == "linkfile"
  }

  /** One child of a `<project>`: `_convert_file` for `copyfile` and
      `linkfile`, `_ignore("project.<tag>")` for any other tag. */
  function AfterProjectChild(m: Models, fp: FileProgress, c: Element): FileProgress
  {
    if IsFileTag(c.tag) then
      var prefix := if c.tag == "copyfile" then "project.copyfile" else "project.linkfile";
      var ignored := AddAllIgnored(fp.ignored, UnknownKeys(prefix, FileKeys, c.attrs));
      var file := FileRefOf(c.attrs);
      if !m.fileRef(file) then fp.(ignored := ignored, failed := Some(c))
      else if c.tag == "copyfile" then fp.(copyfiles := fp.copyfiles + [file], ignored := ignored)
      else fp.(linkfiles := fp.linkfiles + [file], ignored := ignored)
    else
      fp.(ignored := AddIgnored(fp.ignored, "project." + c.tag))
  }

  /** The children of a `<project>` in document order, stopping at the first
      validation error. */
  function AfterProjectChildren(m: Models, ignored: seq<string>, cs: seq<Element>): FileProgress
    decreases |cs|
  {
    if cs == [] then FileProgress([], [], ignored, None)
    else
      var fp := AfterProjectChildren(m, ignored, cs[..|cs| - 1]);
      if fp.failed.Some? then fp else AfterProjectChild(m, fp, cs[|cs| - 1])
  }

  /** One child more, unless a validation error has already escaped. */
  lemma AfterProjectChildrenStep(m: Models, ignored: seq<string>, cs: seq<Element>, i: nat)
    requires i < |cs|
    ensures AfterProjectChildren(m, ignored, cs[..i + 1])
         == var fp := AfterProjectChildren(m, ignored, cs[..i]);
            if fp.failed.Some? then fp else AfterProjectChild(m, fp, cs[i])
  {
    assert cs[..i + 1][..i] == cs[..i];
  }

  /** Once a validation error escapes, the later children are not visited. */
  lemma {:induction false} AfterProjectChildrenStops(m: Models, ignored: seq<string>, cs: seq<Element>, n: nat)
    requires n <= |cs|
    requires AfterProjectChildren(m, ignored, cs[..n]).failed.Some?
    ensures AfterProjectChildren(m, ignored, cs) == AfterProjectChildren(m, ignored, cs[..n])
    decreases |cs|
  {
    if n < |cs| {
      assert cs[..|cs| - 1][..n] == cs[..n];
      AfterProjectChildrenStops(m, ignored, cs[..|cs| - 1], n);
    } else {
      assert cs[..n] == cs;
    }
  }

  /** `_convert_project`: attributes, then children, then `ProjectSpec(**project)`. */
  function AfterProject(m: Models, st: State, e: Element): Progress
  {
    var ignored := AddAllIgnored(st.ignored, UnknownKeys("default", ProjectKeys, e.attrs));
    var fp := AfterProjectChildren(m, ignored, e.children);
    if fp.failed.Some? then Progress(st.(ignored := fp.ignored), fp.failed)
    else
      var project := ProjectSpec(LastValue(e.attrs, "name"), LastValue(e.attrs, "path"),
                                 LastValue(e.attrs, "remote"), LastValue(e.attrs, "revision"),
                                 fp.copyfiles, fp.linkfiles, false);
      if m.project(project) then Progress(st.(projects := st.projects + [project], ignored := fp.ignored), None)
      else Progress(st.(ignored := fp.ignored), Some(e))
  }

  /** One child of the root, dispatched on its tag. */
  function AfterChild(m: Models, st: State, e: Element): Progress
  {
    if e.tag == "default" then Progress(AfterDefault(st, e), None)
    else if e.tag == "remote" then AfterRemote(m, st, e)
    else if e.tag == "project" then AfterProject(m, st, e)
    else Progress(st.(ignored := AddIgnored(st.ignored, e.tag)), None)
  }

  /** The children of the root in document order, stopping at the first
      validation error. */
  function AfterChildren(m: Models, st: State, cs: seq<Element>): Progress
    decreases |cs|
  {
    if cs == [] then Progress(st, None)
    else
      var p := AfterChildren(m, st, cs[..|cs| - 1]);
      if p.failed.Some? then p else AfterChild(m, p.state, cs[|cs| - 1])
  }

  lemma {:induction false} AfterChildrenStops(m: Models, st: State, cs: seq<Element>, n: nat)
    requires n <= |cs|
    requires AfterChildren(m, st, cs[..n]).failed.Some?
    ensures AfterChildren(m, st, cs) == AfterChildren(m, st, cs[..n])
    decreases |cs|
  {
    if n < |cs| {
      assert cs[..|cs| - 1][..n] == cs[..n];
      AfterChildrenStops(m, st, cs[..|cs| - 1], n);
    } else {
      assert cs[..n] == cs;
    }
  }

  /** The message for a document whose root is not `<manifest>`; it quotes
      the tag found. */
  function WrongRootMessage(tag: string): (msg: string)
    ensures |msg| == |tag| + 40
    ensures msg[..17] == "Root element is '" && msg[17..17 + |tag|] == tag
  {
    "Root element is '" + tag + "'. Expecting 'manifest'"
  }

  /** The outcome of `load`: the manifest or the error, and the keys logged
      as ignored before it returned. */
  datatype Outcome = Outcome(result: Result<ManifestSpec, LoadError>, ignored: seq<string>)

  function LoadResult(path: string, parsed: ParseOutcome, m: Models): Outcome
  {
    match parsed
    case NotFound => Outcome(Err(ManifestNotFound(path)), [])
    case Malformed(message) => Outcome(Err(ManifestError(path, Message(message))), [])
    case Parsed(root) =>
      if root.tag != "manifest" then
        Outcome(Err(ManifestError(path, Message(WrongRootMessage(root.tag)))), [])
      else
        var p := AfterChildren(m, Initial, root.children);
        if p.failed.Some? then Outcome(Err(ManifestError(path, Fragment(p.failed.value))), p.state.ignored)
        else
          var defaults := DefaultsOf(p.state.defaults);
          var spec := ManifestSpec(defaults, p.state.remotes, p.state.projects);
          if m.defaults(defaults) && m.manifest(spec) then Outcome(Ok(spec), p.state.ignored)
          else Outcome(Err(ManifestError(path, Fragment(root))), p.state.ignored)
  }

  // ---------------------------------------------------------------------
  // The converter
  // ---------------------------------------------------------------------

  /** The variables `load`'s nested helpers close over, and the helpers. */
  class Loader {
    const models: Models
    var defaults: map<string, string>
    var remotes: seq<Remote>
    var projects: seq<ProjectSpec>
    var ignored: seq<string>

    function Snapshot(): State
      reads this
    {
      State(defaults, remotes, projects, ignored)
    }

    /** No key is logged twice. */
    ghost predicate Valid()
      reads this
    {
      NoDup(ignored)
    }

    constructor (models: Models)
      ensures this.models == models
      ensures Snapshot() == Initial && Valid()
    {
      this.models := models;
      defaults, remotes, projects, ignored := map[], [], [], [];
    }

    method Ignore(key: string)
      requires Valid()
      modifies this
      ensures Valid()
      ensures ignored == AddIgnored(old(ignored), key)
      ensures defaults == old(defaults) && remotes == old(remotes) && projects == old(projects)
    {
      AddIgnoredRecordsOnce(ignored, key);
      if key !in ignored {
        ignored := ignored + [key];
      }
    }

    method ConvertDefault(element: Element)
      requires Valid()
      modifies this
      ensures Valid()
      ensures Snapshot() == AfterDefault(old(Snapshot()), element)
    {
      var attrs := element.attrs;
      for i := 0 to |attrs|
        invariant Valid()
        invariant defaults == DefaultsAfter(old(defaults), attrs[..i])
        invariant ignored == AddAllIgnored(old(ignored), UnknownKeys("default", DefaultKeys, attrs[..i]))
        invariant remotes == old(remotes) && projects == old(projects)
      {
        var name, value := attrs[i].0, attrs[i].1;
        DefaultsStep(old(defaults), attrs, i);
        IgnoredStep(old(ignored), "default", DefaultKeys, attrs, i);
        if name in DefaultKeys {
          defaults := defaults[name := value];
        } else {
          Ignore("default" + "." + name);
        }
      }
      assert attrs[..|attrs|] == attrs;
    }

    method ConvertRemote(element: Element) returns (failure: Option<Element>)
      requires Valid()
      modifies this
      ensures Valid()
      ensures Progress(Snapshot(), failure) == AfterRemote(models, old(Snapshot()), element)
    {
      var attrs := element.attrs;
      var remote := Remote(None, None);
      for i := 0 to |attrs|
        invariant Valid()
        invariant remote == RemoteOf(attrs[..i])
        invariant ignored == AddAllIgnored(old(ignored), UnknownKeys("remote", RemoteKeys, attrs[..i]))
        invariant defaults == old(defaults) && remotes == old(remotes) && projects == old(projects)
      {
        var name, value := attrs[i].0, attrs[i].1;
        LastValueStep(attrs, "name", i);
        LastValueStep(attrs, "fetch", i);
        IgnoredStep(old(ignored), "remote", RemoteKeys, attrs, i);
        if name == "name" {
          remote := remote.(name := Some(value));
        } else if name == "fetch" {
          remote := remote.(urlBase := Some(value));
        } else {
          Ignore("remote" + "." + name);
        }
      }
      assert attrs[..|attrs|] == attrs;
      if models.remote(remote) {
        remotes := remotes + [remote];
        failure := None;
      } else {
        failure := Some(element);
      }
    }

    method ConvertFile(files: seq<FileRef>, prefix: string, element: Element)
      returns (files': seq<FileRef>, failure: Option<Element>)
      requires Valid()
      modifies this
      ensures Valid()
      ensures ignored == AddAllIgnored(old(ignored), UnknownKeys(prefix, FileKeys, element.attrs))
      ensures defaults == old(defaults) && remotes == old(remotes) && projects == old(projects)
      ensures var file := FileRefOf(element.attrs);
        if models.fileRef(file) then files' == files + [file] && failure.None?
        else files' == files && failure == Some(element)
    {
      var attrs := element.attrs;
      var file := FileRef(None, None);
      for i := 0 to |attrs|
        invariant Valid()
        invariant file == FileRefOf(attrs[..i])
        invariant ignored == AddAllIgnored(old(ignored), UnknownKeys(prefix, FileKeys, attrs[..i]))
        invariant defaults == old(defaults) && remotes == old(remotes) && projects == old(projects)
      {
        var name, value := attrs[i].0, attrs[i].1;
        LastValueStep(attrs, "src", i);
        LastValueStep(attrs, "dest", i);
        IgnoredStep(old(ignored), prefix, FileKeys, attrs, i);
        if name == "src" {
          file := file.(src := Some(value));
        } else if name == "dest" {
          file := file.(dest := Some(value));
        } else {
          Ignore(prefix + "." + name);
        }
      }
      assert attrs[..|attrs|] == attrs;
      if models.fileRef(file) {
        files', failure := files + [file], None;
      } else {
        files', failure := files, Some(element);
      }
    }

    /** The loop of `_convert_project` over the `<project>`'s children. */
    method ConvertChildren(children: seq<Element>)
      returns (copyfiles: seq<FileRef>, linkfiles: seq<FileRef>, failure: Option<Element>)
      requires Valid()
      modifies this
      ensures Valid()
      ensures AfterProjectChildren(models, old(ignored), children) == FileProgress(copyfiles, linkfiles, ignored, failure)
      ensures defaults == old(defaults) && remotes == old(remotes) && projects == old(projects)
    {
      copyfiles, linkfiles, failure := [], [], None;
      for i := 0 to |children|
        invariant Valid()
        invariant failure.None?
        invariant AfterProjectChildren(models, old(ignored), children[..i]) == FileProgress(copyfiles, linkfiles, ignored, failure)
        invariant defaults == old(defaults) && remotes == old(remotes) && projects == old(projects)
      {
        var sub := children[i];
        AfterProjectChildrenStep(models, old(ignored), children, i);
        ghost var fp := FileProgress(copyfiles, linkfiles, ignored, None);
        if sub.tag == "copyfile" {
          copyfiles, failure := ConvertFile(copyfiles, "project.copyfile", sub);
        } else if sub.tag == "linkfile" {
          linkfiles, failure := ConvertFile(linkfiles, "project.linkfile", sub);
        } else {
          Ignore("project." + sub.tag);
        }
        assert AfterProjectChild(models, fp, sub) == FileProgress(copyfiles, linkfiles, ignored, failure);
        if failure.Some? {
          AfterProjectChildrenStops(models, old(ignored), children, i + 1);
          return;
        }
      }
      assert children[..|children|] == children;
    }

    method ConvertProject(element: Element) returns (failure: Option<Element>)
      requires Valid()
      modifies this
      ensures Valid()
      ensures Progress(Snapshot(), failure) == AfterProject(models, old(Snapshot()), element)
    {
      var project := ProjectSpec(None, None, None, None, [], [], false);
      var attrs := element.attrs;
      for i := 0 to |attrs|
        invariant Valid()
        invariant project == ProjectSpec(LastValue(attrs[..i], "name"), LastValue(attrs[..i], "path"),
                                         LastValue(attrs[..i], "remote"), LastValue(attrs[..i], "revision"),
                                         [], [], false)
        invariant ignored == AddAllIgnored(old(ignored), UnknownKeys("default", ProjectKeys, attrs[..i]))
        invariant defaults == old(defaults) && remotes == old(remotes) && projects == old(projects)
      {
        var name, value := attrs[i].0, attrs[i].1;
        LastValueStep(attrs, "name", i);
        LastValueStep(attrs, "path", i);
        LastValueStep(attrs, "remote", i);
        LastValueStep(attrs, "revision", i);
        IgnoredStep(old(ignored), "default", ProjectKeys, attrs, i);
        if name == "name" {
          project := project.(name := Some(value));
        } else if name == "path" {
          project := project.(path := Some(value));
        } else if name == "remote" {
          project := project.(remote := Some(value));
        } else if name == "revision" {
          project := project.(revision := Some(value));
        } else {
          Ignore("default" + "." + name);
        }
      }
      assert attrs[..|attrs|] == attrs;
      var copyfiles, linkfiles;
      copyfiles, linkfiles, failure := ConvertChildren(element.children);
      if failure.Some? {
        return;
      }
      project := project.(copyfiles := copyfiles, linkfiles := linkfiles);
      if models.project(project) {
        projects := projects + [project];
        failure := None;
      } else {
        failure := Some(element);
      }
    }
  }

  /** `load`, given what parsing the file yielded: the manifest or the error,
      and the keys logged as ignored. */
  method Load(path: string, parsed: ParseOutcome, models: Models)
    returns (result: Result<ManifestSpec, LoadError>, ignored: seq<string>)
    ensures Outcome(result, ignored) == LoadResult(path, parsed, models)
    ensures NoDup(ignored)
  {
    var root;
    match parsed {
      case NotFound =>
        return Err(ManifestNotFound(path)), [];
      case Malformed(message) =>
        return Err(ManifestError(path, Message(message))), [];
      case Parsed(r) =>
        root := r;
    }
    if root.tag != "manifest" {
      return Err(ManifestError(path, Message(WrongRootMessage(root.tag)))), [];
    }
    var loader := new Loader(models);
    var children := root.children;
    for i := 0 to |children|
      invariant loader.Valid() && loader.models == models
      invariant AfterChildren(models, Initial, children[..i]) == Progress(loader.Snapshot(), None)
    {
      var element := children[i];
      assert children[..i + 1][..i] == children[..i];
      var failure: Option<Element> := None;
      if element.tag == "default" {
        loader.ConvertDefault(element);
      } else if element.tag == "remote" {
        failure := loader.ConvertRemote(element);
      } else if element.tag == "project" {
        failure := loader.ConvertProject(element);
      } else {
        loader.Ignore(element.tag);
      }
      if failure.Some? {
        AfterChildrenStops(models, Initial, children, i + 1);
        return Err(ManifestError(path, Fragment(failure.value))), loader.ignored;
      }
    }
    assert children[..|children|] == children;
    var defaults := DefaultsOf(loader.defaults);
    var spec := ManifestSpec(defaults, loader.remotes, loader.projects);
    if models.defaults(defaults) && models.manifest(spec) {
      result := Ok(spec);
    } else {
      result := Err(ManifestError(path, Fragment(root)));
    }
    ignored := loader.ignored;
  }
}
