/**
  What `load` promises, stated against definitions that do not mention the
  walk: which attribute value a record takes, which keys are logged as
  ignored and in what order, which records the manifest lists, and which
  element an error reports.
*/
module LoadProperties {
  import opened Wrappers
  import opened Xml
  import opened Gitws
  import opened RepoManifestFormat

  // ---------------------------------------------------------------------
  // Attributes
  // ---------------------------------------------------------------------

  /** A record field holds the value of the LAST attribute of that name, and
      is absent exactly when no attribute has that name. */
  lemma {:induction false} LastValueIsLastOccurrence(attrs: seq<Attr>, name: string)
    ensures LastValue(attrs, name).None? <==> forall j | 0 <= j < |attrs| :: attrs[j].0 != name
    ensures forall j | 0 <= j < |attrs| && attrs[j].0 == name && (forall k | j < k < |attrs| :: attrs[k].0 != name) ::
      LastValue(attrs, name) == Some(attrs[j].1)
    decreases |attrs|
  {
    if attrs != [] {
      var n := |attrs| - 1;
      var init := attrs[..n];
      LastValueIsLastOccurrence(init, name);
      assert forall j | 0 <= j < n :: init[j] == attrs[j];
    }
  }

  /** The keys logged for an element's attributes are `prefix.<attr>` for
      exactly the attributes outside the recognised set. */
  lemma {:induction false} UnknownKeysAreUnrecognisedAttributes(prefix: string, known: set<string>, attrs: seq<Attr>)
    ensures forall k :: k in UnknownKeys(prefix, known, attrs) <==>
      exists j | 0 <= j < |attrs| :: attrs[j].0 !in known && k == prefix + "." + attrs[j].0
    decreases |attrs|
  {
    if attrs != [] {
      var n := |attrs| - 1;
      var init := attrs[..n];
      UnknownKeysAreUnrecognisedAttributes(prefix, known, init);
      assert forall j | 0 <= j < n :: init[j] == attrs[j];
      forall k | k in UnknownKeys(prefix, known, attrs)
        ensures exists j | 0 <= j < |attrs| :: attrs[j].0 !in known && k == prefix + "." + attrs[j].0
      {
        if k !in UnknownKeys(prefix, known, init) {
          assert attrs[n].0 !in known && k == prefix + "." + attrs[n].0;
        }
      }
      forall k, j | 0 <= j < |attrs| && attrs[j].0 !in known && k == prefix + "." + attrs[j].0
        ensures k in UnknownKeys(prefix, known, attrs)
      {
        if j < n {
          assert init[j].0 !in known && k == prefix + "." + init[j].0;
        }
      }
    }
  }

  /** Within one element and across several `<default>` elements, the last
      value written for `remote` or `revision` wins, and no other key is
      ever stored. */
  lemma {:induction false} DefaultsLastWriteWins(defaults: map<string, string>, attrs: seq<Attr>)
    ensures var r := DefaultsAfter(defaults, attrs);
      && (forall k :: k in r <==> k in defaults || (k in DefaultKeys && LastValue(attrs, k).Some?))
      && (forall k | k in DefaultKeys && LastValue(attrs, k).Some? :: r[k] == LastValue(attrs, k).value)
      && (forall k | k in defaults && !(k in DefaultKeys && LastValue(attrs, k).Some?) :: r[k] == defaults[k])
    decreases |attrs|
  {
    if attrs != [] {
      DefaultsLastWriteWins(defaults, attrs[..|attrs| - 1]);
    }
  }

  /** Converting two `<default>` elements in turn is converting the
      concatenation of their attributes. */
  lemma {:induction false} DefaultsAfterConcat(defaults: map<string, string>, a: seq<Attr>, b: seq<Attr>)
    ensures DefaultsAfter(defaults, a + b) == DefaultsAfter(DefaultsAfter(defaults, a), b)
    decreases |b|
  {
    if b == [] {
      assert a + b == a;
    } else {
      assert (a + b)[..|a + b| - 1] == a + b[..|b| - 1];
      DefaultsAfterConcat(defaults, a, b[..|b| - 1]);
    }
  }

  // ---------------------------------------------------------------------
  // The ignored-key log
  // ---------------------------------------------------------------------

  /** The log after ignoring `keys` holds the old log followed by each new
      key once, and never holds a key twice. */
  lemma {:induction false} IgnoredLogIsDeduplicated(ignored: seq<string>, keys: seq<string>)
    ensures var r := AddAllIgnored(ignored, keys);
      && (forall k :: k in r <==> k in ignored || k in keys)
      && |ignored| <= |r| && r[..|ignored|] == ignored
      && (NoDup(ignored) ==> NoDup(r))
    decreases |keys|
  {
    if keys != [] {
      var init := keys[..|keys| - 1];
      IgnoredLogIsDeduplicated(ignored, init);
      assert keys == init + [keys[|keys| - 1]];
      var r0 := AddAllIgnored(ignored, init);
      AddIgnoredRecordsOnce(r0, keys[|keys| - 1]);
      assert r0[..|ignored|] == ignored;
      assert AddIgnored(r0, keys[|keys| - 1])[..|r0|] == r0;
    }
  }

  /** Position of the first occurrence of `x` in `s`. */
  function FirstIndex<T(==)>(s: seq<T>, x: T): (i: nat)
    requires x in s
    ensures i < |s| && s[i] == x && x !in s[..i]
  {
    if s[0] == x then 0
    else
      var i := 1 + FirstIndex(s[1..], x);
      assert s[..i] == [s[0]] + s[1..][..i - 1];
      i
  }

  lemma FirstIndexAppend<T>(s: seq<T>, y: T, x: T)
    requires x in s
    ensures FirstIndex(s + [y], x) == FirstIndex(s, x)
  {
    var a, b := FirstIndex(s + [y], x), FirstIndex(s, x);
    assert (s + [y])[b] == x;
  }

  /** Appending a key not yet logged keeps the log in first-seen order. */
  lemma FirstSeenOrderStep(s: seq<string>, k: string, r0: seq<string>)
    requires forall x | x in r0 :: x in s
    requires k in s ==> k in r0
    requires forall i, j | 0 <= i < j < |r0| :: FirstIndex(s, r0[i]) < FirstIndex(s, r0[j])
    ensures var r := if k in r0 then r0 else r0 + [k];
      (forall x | x in r :: x in s + [k]) &&
      forall i, j | 0 <= i < j < |r| :: FirstIndex(s + [k], r[i]) < FirstIndex(s + [k], r[j])
  {
    var r := if k in r0 then r0 else r0 + [k];
    forall i, j | 0 <= i < j < |r| ensures FirstIndex(s + [k], r[i]) < FirstIndex(s + [k], r[j]) {
      assert r[i] == r0[i];
      FirstIndexAppend(s, k, r[i]);
      if j < |r0| {
        assert r[j] == r0[j];
        FirstIndexAppend(s, k, r[j]);
      } else {
        assert r[j] == k && k !in s;
        assert FirstIndex(s + [k], k) == |s|;
      }
    }
  }

  /** The log keeps the keys in the order in which each was first met. */
  lemma {:induction false} IgnoredInFirstSeenOrder(ignored: seq<string>, keys: seq<string>)
    requires NoDup(ignored)
    ensures var r := AddAllIgnored(ignored, keys);
      (forall k | k in r :: k in ignored + keys) &&
      forall i, j | 0 <= i < j < |r| :: FirstIndex(ignored + keys, r[i]) < FirstIndex(ignored + keys, r[j])
    decreases |keys|
  {
    IgnoredLogIsDeduplicated(ignored, keys);
    var r := AddAllIgnored(ignored, keys);
    if keys == [] {
      assert ignored + keys == ignored;
      forall i | 0 <= i < |r| ensures FirstIndex(ignored, r[i]) == i {
        assert ignored[..i] == r[..i];
      }
    } else {
      var init := keys[..|keys| - 1];
      var k := keys[|keys| - 1];
      assert ignored + keys == (ignored + init) + [k];
      IgnoredInFirstSeenOrder(ignored, init);
      IgnoredLogIsDeduplicated(ignored, init);
      var r0 := AddAllIgnored(ignored, init);
      assert r == if k in r0 then r0 else r0 + [k];
      FirstSeenOrderStep(ignored + init, k, r0);
    }
  }

  // ---------------------------------------------------------------------
  // The manifest, stated without the walk
  // ---------------------------------------------------------------------

  /** The attributes a child of the root adds to the defaults. */
  function DefaultAttrsOf(c: Element): seq<Attr>
  {
    if c.tag == "default" then c.attrs else []
  }

  /** The attributes of the `<default>` children, in document order. */
  function DefaultAttrs(cs: seq<Element>): seq<Attr>
    decreases |cs|
  {
    if cs == [] then [] else DefaultAttrs(cs[..|cs| - 1]) + DefaultAttrsOf(cs[|cs| - 1])
  }

  function RemotesOfChild(c: Element): seq<Remote>
  {
    if c.tag == "remote" then [RemoteOf(c.attrs)] else []
  }

  /** One `Remote` per `<remote>` child, in document order. */
  function RemotesOf(cs: seq<Element>): seq<Remote>
    decreases |cs|
  {
    if cs == [] then [] else RemotesOf(cs[..|cs| - 1]) + RemotesOfChild(cs[|cs| - 1])
  }

  function FileRefsOfChild(tag: string, c: Element): seq<FileRef>
  {
    if c.tag == tag then [FileRefOf(c.attrs)] else []
  }

  /** One `FileRef` per child tagged `tag`, in document order. */
  function FileRefsOf(tag: string, cs: seq<Element>): seq<FileRef>
    decreases |cs|
  {
    if cs == [] then [] else FileRefsOf(tag, cs[..|cs| - 1]) + FileRefsOfChild(tag, cs[|cs| - 1])
  }

  /** The `ProjectSpec` of a `<project>`: its four recognised attributes, its
      `copyfile` and `linkfile` children, and never `recursive`. */
  function ProjectOf(e: Element): ProjectSpec
  {
    ProjectSpec(LastValue(e.attrs, "name"), LastValue(e.attrs, "path"),
                LastValue(e.attrs, "remote"), LastValue(e.attrs, "revision"),
                FileRefsOf("copyfile", e.children), FileRefsOf("linkfile", e.children), false)
  }

  function ProjectsOfChild(c: Element): seq<ProjectSpec>
  {
    if c.tag == "project" then [ProjectOf(c)] else []
  }

  /** One `ProjectSpec` per `<project>` child of the root, in document order. */
  function ProjectsOf(cs: seq<Element>): seq<ProjectSpec>
    decreases |cs|
  {
    if cs == [] then [] else ProjectsOf(cs[..|cs| - 1]) + ProjectsOfChild(cs[|cs| - 1])
  }

  /** A child of a `<project>` if its `FileRef` is invalid. */
  function FileFailure(m: Models, c: Element): seq<Element>
  {
    if IsFileTag(c.tag) && !m.fileRef(FileRefOf(c.attrs)) then [c] else []
  }

  /** The `copyfile` and `linkfile` children whose `FileRef` is invalid. */
  function FileFailures(m: Models, cs: seq<Element>): seq<Element>
    decreases |cs|
  {
    if cs == [] then [] else FileFailures(m, cs[..|cs| - 1]) + FileFailure(m, cs[|cs| - 1])
  }

  /** The elements under a child of the root whose record is invalid, in the
      order in which the records are built: a `<remote>`; a `<project>`'s
      file children, then the `<project>` itself. */
  function ChildFailures(m: Models, c: Element): seq<Element>
  {
    if c.tag == "remote" then (if m.remote(RemoteOf(c.attrs)) then [] else [c])
    else if c.tag == "project" then FileFailures(m, c.children) + (if m.project(ProjectOf(c)) then [] else [c])
    else []
  }

  function Failures(m: Models, cs: seq<Element>): seq<Element>
    decreases |cs|
  {
    if cs == [] then [] else Failures(m, cs[..|cs| - 1]) + ChildFailures(m, cs[|cs| - 1])
  }

  /** The keys a child of a `<project>` has logged. */
  function ProjectChildKeys(c: Element): seq<string>
  {
    if IsFileTag(c.tag) then
      UnknownKeys(if c.tag == "copyfile" then "project.copyfile" else "project.linkfile", FileKeys, c.attrs)
    else ["project." + c.tag]
  }

  function ProjectChildrenKeys(cs: seq<Element>): seq<string>
    decreases |cs|
  {
    if cs == [] then [] else ProjectChildrenKeys(cs[..|cs| - 1]) + ProjectChildKeys(cs[|cs| - 1])
  }

  /** The keys a child of the root has logged: unknown attributes, and the
      bare tag of an unknown element. */
  function ChildKeys(c: Element): seq<string>
  {
    if c.tag == "default" then UnknownKeys("default", DefaultKeys, c.attrs)
    else if c.tag == "remote" then UnknownKeys("remote", RemoteKeys, c.attrs)
    else if c.tag == "project" then UnknownKeys("default", ProjectKeys, c.attrs) + ProjectChildrenKeys(c.children)
    else [c.tag]
  }

  /** Every key met while walking the children, in document order, repeats
      included. */
  function IgnoreKeys(cs: seq<Element>): seq<string>
    decreases |cs|
  {
    if cs == [] then [] else IgnoreKeys(cs[..|cs| - 1]) + ChildKeys(cs[|cs| - 1])
  }

  // ---------------------------------------------------------------------
  // The walk against these definitions
  // ---------------------------------------------------------------------

  lemma AddIgnoredIsAddAllOfOne(ignored: seq<string>, key: string)
    ensures AddAllIgnored(ignored, [key]) == AddIgnored(ignored, key)
  {
    assert [key][..0] == [];
  }

  /** One child of a `<project>`. */
  lemma ProjectChildMatchesReference(m: Models, fp: FileProgress, c: Element)
    requires fp.failed.None?
    ensures var r := AfterProjectChild(m, fp, c);
      && (r.failed.None? <==> FileFailure(m, c) == [])
      && (r.failed.Some? ==> r.failed.value == c)
      && r.ignored == AddAllIgnored(fp.ignored, ProjectChildKeys(c))
      && (r.failed.None? ==>
            && r.copyfiles == fp.copyfiles + FileRefsOfChild("copyfile", c)
            && r.linkfiles == fp.linkfiles + FileRefsOfChild("linkfile", c))
  {
    if !IsFileTag(c.tag) {
      AddIgnoredIsAddAllOfOne(fp.ignored, "project." + c.tag);
    }
  }

  /** The children of a `<project>`: the file lists are the `copyfile` and
      `linkfile` children in document order, and the walk stops at the first
      invalid `FileRef`. */
  lemma {:induction false} ProjectChildrenMatchReference(m: Models, ignored: seq<string>, cs: seq<Element>)
    ensures var fp := AfterProjectChildren(m, ignored, cs);
      && (fp.failed.None? <==> FileFailures(m, cs) == [])
      && (fp.failed.Some? ==> fp.failed.value == FileFailures(m, cs)[0])
      && (fp.failed.None? ==>
            && fp.copyfiles == FileRefsOf("copyfile", cs)
            && fp.linkfiles == FileRefsOf("linkfile", cs)
            && fp.ignored == AddAllIgnored(ignored, ProjectChildrenKeys(cs)))
    decreases |cs|
  {
    if cs != [] {
      var init := cs[..|cs| - 1];
      var c := cs[|cs| - 1];
      ProjectChildrenMatchReference(m, ignored, init);
      var fp := AfterProjectChildren(m, ignored, init);
      if fp.failed.None? {
        ProjectChildMatchesReference(m, fp, c);
        AddAllIgnoredConcat(ignored, ProjectChildrenKeys(init), ProjectChildKeys(c));
      }
    }
  }

  /** One child of the root. */
  lemma ChildMatchesReference(m: Models, st: State, c: Element)
    ensures var p := AfterChild(m, st, c);
      && (p.failed.None? <==> ChildFailures(m, c) == [])
      && (p.failed.Some? ==> p.failed.value == ChildFailures(m, c)[0])
      && (p.failed.None? ==>
            && p.state.defaults == DefaultsAfter(st.defaults, DefaultAttrsOf(c))
            && p.state.remotes == st.remotes + RemotesOfChild(c)
            && p.state.projects == st.projects + ProjectsOfChild(c)
            && p.state.ignored == AddAllIgnored(st.ignored, ChildKeys(c)))
  {
    if c.tag == "project" {
      var keys := UnknownKeys("default", ProjectKeys, c.attrs);
      ProjectChildrenMatchReference(m, AddAllIgnored(st.ignored, keys), c.children);
      AddAllIgnoredConcat(st.ignored, keys, ProjectChildrenKeys(c.children));
    } else if c.tag !in {"default", "remote"} {
      AddIgnoredIsAddAllOfOne(st.ignored, c.tag);
    }
  }

  /** The children of the root: the walk stops at the first invalid
      element, in document order. */
  lemma {:induction false} ChildrenFailureMatchesReference(m: Models, st: State, cs: seq<Element>)
    ensures var p := AfterChildren(m, st, cs);
      && (p.failed.None? <==> Failures(m, cs) == [])
      && (p.failed.Some? ==> p.failed.value == Failures(m, cs)[0])
    decreases |cs|
  {
    if cs != [] {
      var init := cs[..|cs| - 1];
      var c := cs[|cs| - 1];
      ChildrenFailureMatchesReference(m, st, init);
      var p := AfterChildren(m, st, init);
      assert Failures(m, cs) == Failures(m, init) + ChildFailures(m, c);
      if p.failed.None? {
        ChildMatchesReference(m, p.state, c);
      }
    }
  }

  /** The children of the root, when no record is invalid: one record per
      `<remote>` and `<project>`, in document order. */
  lemma {:induction false} ChildrenRecordsMatchReference(m: Models, st: State, cs: seq<Element>)
    requires AfterChildren(m, st, cs).failed.None?
    ensures var s := AfterChildren(m, st, cs).state;
      && s.remotes == st.remotes + RemotesOf(cs)
      && s.projects == st.projects + ProjectsOf(cs)
    decreases |cs|
  {
    if cs == [] {
      assert st.remotes + [] == st.remotes && st.projects + [] == st.projects;
    } else {
      var init := cs[..|cs| - 1];
      var c := cs[|cs| - 1];
      var p := AfterChildren(m, st, init);
      assert p.failed.None?;
      ChildrenRecordsMatchReference(m, st, init);
      ChildMatchesReference(m, p.state, c);
      assert st.remotes + RemotesOf(cs) == st.remotes + RemotesOf(init) + RemotesOfChild(c);
      assert st.projects + ProjectsOf(cs) == st.projects + ProjectsOf(init) + ProjectsOfChild(c);
    }
  }

  /** The children of the root, when no record is invalid: the defaults
      merged from every `<default>`, and the deduplicated keys. */
  lemma {:induction false} ChildrenDefaultsAndLogMatchReference(m: Models, st: State, cs: seq<Element>)
    requires AfterChildren(m, st, cs).failed.None?
    ensures var s := AfterChildren(m, st, cs).state;
      && s.defaults == DefaultsAfter(st.defaults, DefaultAttrs(cs))
      && s.ignored == AddAllIgnored(st.ignored, IgnoreKeys(cs))
    decreases |cs|
  {
    if cs != [] {
      var init := cs[..|cs| - 1];
      var c := cs[|cs| - 1];
      var p := AfterChildren(m, st, init);
      assert p.failed.None?;
      ChildrenDefaultsAndLogMatchReference(m, st, init);
      ChildMatchesReference(m, p.state, c);
      DefaultsAfterConcat(st.defaults, DefaultAttrs(init), DefaultAttrsOf(c));
      AddAllIgnoredConcat(st.ignored, IgnoreKeys(init), ChildKeys(c));
    }
  }

  lemma {:induction false} ProjectChildrenKeepLogNoDup(m: Models, ignored: seq<string>, cs: seq<Element>)
    requires NoDup(ignored)
    ensures NoDup(AfterProjectChildren(m, ignored, cs).ignored)
    decreases |cs|
  {
    if cs != [] {
      var c := cs[|cs| - 1];
      ProjectChildrenKeepLogNoDup(m, ignored, cs[..|cs| - 1]);
      var fp := AfterProjectChildren(m, ignored, cs[..|cs| - 1]);
      if IsFileTag(c.tag) {
        IgnoredLogIsDeduplicated(fp.ignored, ProjectChildKeys(c));
      }
    }
  }

  lemma {:induction false} ChildrenKeepLogNoDup(m: Models, st: State, cs: seq<Element>)
    requires NoDup(st.ignored)
    ensures NoDup(AfterChildren(m, st, cs).state.ignored)
    decreases |cs|
  {
    if cs != [] {
      var c := cs[|cs| - 1];
      ChildrenKeepLogNoDup(m, st, cs[..|cs| - 1]);
      var s := AfterChildren(m, st, cs[..|cs| - 1]).state;
      if c.tag == "default" {
        IgnoredLogIsDeduplicated(s.ignored, UnknownKeys("default", DefaultKeys, c.attrs));
      } else if c.tag == "remote" {
        IgnoredLogIsDeduplicated(s.ignored, UnknownKeys("remote", RemoteKeys, c.attrs));
      } else if c.tag == "project" {
        var keys := UnknownKeys("default", ProjectKeys, c.attrs);
        IgnoredLogIsDeduplicated(s.ignored, keys);
        ProjectChildrenKeepLogNoDup(m, AddAllIgnored(s.ignored, keys), c.children);
      }
    }
  }

  // ---------------------------------------------------------------------
  // What `load` returns
  // ---------------------------------------------------------------------

  /** A missing file, a parse failure and a root other than `<manifest>` are
      reported before anything is converted or logged. */
  lemma LoadRejectsBeforeConversion(path: string, parsed: ParseOutcome, m: Models)
    requires !parsed.Parsed? || parsed.root.tag != "manifest"
    ensures var o := LoadResult(path, parsed, m);
      && o.ignored == []
      && (parsed.NotFound? ==> o.result == Err(ManifestNotFound(path)))
      && (parsed.Malformed? ==> o.result == Err(ManifestError(path, Message(parsed.message))))
      && (parsed.Parsed? ==>
            o.result == Err(ManifestError(path, Message(WrongRootMessage(parsed.root.tag)))))
  {
  }

  /** `Defaults(**defaults)` after every `<default>`: each field is the
      last value given for it, and absent if none was. */
  lemma MergedDefaults(attrs: seq<Attr>)
    ensures DefaultsOf(DefaultsAfter(map[], attrs)) == Defaults(LastValue(attrs, "remote"), LastValue(attrs, "revision"))
  {
    DefaultsLastWriteWins(map[], attrs);
    assert "remote" in DefaultKeys && "revision" in DefaultKeys;
  }

  /** The manifest `load` returns, or the error it raises, for a document
      rooted at `<manifest>`: the first invalid record's element if there is
      one, else the manifest of the merged defaults and of one record per
      `<remote>` and `<project>` in document order, or the root's error when
      the final `Defaults` or `ManifestSpec` is invalid. */
  lemma LoadCorrect(path: string, root: Element, m: Models)
    requires root.tag == "manifest"
    ensures var cs := root.children;
      var r := LoadResult(path, Parsed(root), m).result;
      if Failures(m, cs) != [] then r == Err(ManifestError(path, Fragment(Failures(m, cs)[0])))
      else
        var spec := ManifestSpec(
          Defaults(LastValue(DefaultAttrs(cs), "remote"), LastValue(DefaultAttrs(cs), "revision")),
          RemotesOf(cs), ProjectsOf(cs));
        r == if m.defaults(spec.defaults) && m.manifest(spec) then Ok(spec)
             else Err(ManifestError(path, Fragment(root)))
  {
    var cs := root.children;
    ChildrenFailureMatchesReference(m, Initial, cs);
    if AfterChildren(m, Initial, cs).failed.None? {
      var s := AfterChildren(m, Initial, cs).state;
      ChildrenRecordsMatchReference(m, Initial, cs);
      ChildrenDefaultsAndLogMatchReference(m, Initial, cs);
      MergedDefaults(DefaultAttrs(cs));
      assert [] + RemotesOf(cs) == RemotesOf(cs) && [] + ProjectsOf(cs) == ProjectsOf(cs);
      assert s.remotes == RemotesOf(cs) && s.projects == ProjectsOf(cs);
      assert DefaultsOf(s.defaults) == Defaults(LastValue(DefaultAttrs(cs), "remote"), LastValue(DefaultAttrs(cs), "revision"));
    }
  }

  /** Each key is logged at most once per `load`; on success the log is every
      unknown attribute and tag met, in first-seen order. */
  lemma LoadLogsEachKeyOnce(path: string, parsed: ParseOutcome, m: Models)
    ensures NoDup(LoadResult(path, parsed, m).ignored)
    ensures parsed.Parsed? && parsed.root.tag == "manifest" && Failures(m, parsed.root.children) == [] ==>
      LoadResult(path, parsed, m).ignored == AddAllIgnored([], IgnoreKeys(parsed.root.children))
  {
    if parsed.Parsed? && parsed.root.tag == "manifest" {
      ChildrenKeepLogNoDup(m, Initial, parsed.root.children);
      ChildrenFailureMatchesReference(m, Initial, parsed.root.children);
      if Failures(m, parsed.root.children) == [] {
        ChildrenDefaultsAndLogMatchReference(m, Initial, parsed.root.children);
      }
    }
  }

  lemma {:induction false} ProjectsNeverRecursive(cs: seq<Element>)
    ensures forall p | p in ProjectsOf(cs) :: !p.recursive
    decreases |cs|
  {
    if cs != [] {
      ProjectsNeverRecursive(cs[..|cs| - 1]);
    }
  }

  /** Every project of a loaded manifest has `recursive` false. */
  lemma LoadedProjectsNeverRecursive(path: string, root: Element, m: Models)
    requires root.tag == "manifest"
    requires LoadResult(path, Parsed(root), m).result.Ok?
    ensures forall p | p in LoadResult(path, Parsed(root), m).result.value.dependencies :: !p.recursive
  {
    LoadCorrect(path, root, m);
    ProjectsNeverRecursive(root.children);
  }

  function CountTag(cs: seq<Element>, tag: string): nat
    decreases |cs|
  {
    if cs == [] then 0 else CountTag(cs[..|cs| - 1], tag) + (if cs[|cs| - 1].tag == tag then 1 else 0)
  }

  /** Each `<remote>` and each top-level `<project>` contributes exactly one
      record; nested elements contribute none. */
  lemma {:induction false} OneRecordPerElement(cs: seq<Element>)
    ensures |RemotesOf(cs)| == CountTag(cs, "remote")
    ensures |ProjectsOf(cs)| == CountTag(cs, "project")
    decreases |cs|
  {
    if cs != [] {
      OneRecordPerElement(cs[..|cs| - 1]);
    }
  }

  /** A root child with an unknown tag is logged under its bare tag and
      changes nothing else: no record, no failure. */
  lemma UnknownTagOnlyLogged(m: Models, cs: seq<Element>, c: Element)
    requires c.tag !in {"default", "remote", "project"}
    ensures IgnoreKeys(cs + [c]) == IgnoreKeys(cs) + [c.tag]
    ensures Failures(m, cs + [c]) == Failures(m, cs)
    ensures RemotesOf(cs + [c]) == RemotesOf(cs) && ProjectsOf(cs + [c]) == ProjectsOf(cs)
    ensures DefaultAttrs(cs + [c]) == DefaultAttrs(cs)
  {
    assert (cs + [c])[..|cs|] == cs;
  }

  /** A child of a `<project>` other than `copyfile` and `linkfile`, a nested
      `<project>` among them, is logged as `project.<tag>` and adds no file
      and no failure: nested projects are not flattened. */
  lemma NonFileChildOnlyLogged(m: Models, cs: seq<Element>, c: Element)
    requires !IsFileTag(c.tag)
    ensures ProjectChildrenKeys(cs + [c]) == ProjectChildrenKeys(cs) + ["project." + c.tag]
    ensures FileFailures(m, cs + [c]) == FileFailures(m, cs)
    ensures FileRefsOf("copyfile", cs + [c]) == FileRefsOf("copyfile", cs)
    ensures FileRefsOf("linkfile", cs + [c]) == FileRefsOf("linkfile", cs)
  {
    assert (cs + [c])[..|cs|] == cs;
  }

  /** The element an error reports is the smallest one whose record is
      invalid: a `<remote>` or `<project>` child of the root, or a
      `copyfile`/`linkfile` child of a `<project>`; and every such element is
      reported if nothing before it is. */
  lemma {:induction false} FileFailuresAreInvalidFiles(m: Models, cs: seq<Element>)
    ensures forall e | e in FileFailures(m, cs) :: e in cs && IsFileTag(e.tag) && !m.fileRef(FileRefOf(e.attrs))
    ensures forall e | e in cs && IsFileTag(e.tag) && !m.fileRef(FileRefOf(e.attrs)) :: e in FileFailures(m, cs)
    decreases |cs|
  {
    if cs != [] {
      var init := cs[..|cs| - 1];
      FileFailuresAreInvalidFiles(m, init);
      assert cs == init + [cs[|cs| - 1]];
    }
  }

  lemma {:induction false} FailuresAreInvalidElements(m: Models, cs: seq<Element>)
    ensures forall e | e in Failures(m, cs) ::
      || (e in cs && e.tag == "remote" && !m.remote(RemoteOf(e.attrs)))
      || (e in cs && e.tag == "project" && !m.project(ProjectOf(e)))
      || (exists p | p in cs && p.tag == "project" :: e in FileFailures(m, p.children))
    ensures forall e | e in cs && e.tag == "remote" && !m.remote(RemoteOf(e.attrs)) :: e in Failures(m, cs)
    ensures forall e | e in cs && e.tag == "project" && !m.project(ProjectOf(e)) :: e in Failures(m, cs)
    ensures forall p, e | p in cs && p.tag == "project" && e in FileFailures(m, p.children) :: e in Failures(m, cs)
    decreases |cs|
  {
    if cs != [] {
      var init := cs[..|cs| - 1];
      FailuresAreInvalidElements(m, init);
      assert cs == init + [cs[|cs| - 1]];
    }
  }
}
