/** Filling and building a bundle. */
module Bundles {
  import opened Wrappers
  import opened Names
  import opened BundleNames

  datatype Builder = Builder(
    modules: map<string, Module>, data: map<string, Contents>, files: map<string, Contents>,
    error: Option<Error>)

  const EMPTY: Builder := Builder(map[], map[], map[], None)

  function Normalized(path: string): string {
    Replace(path, '\\', '/')
  }

  // Both separators of a path count as one.
  lemma {:induction false} SlashesOnly(path: string)
    ensures |Normalized(path)| == |path|
    ensures forall i :: 0 <= i < |path| ==> Normalized(path)[i] == if path[i] == '\\' then '/' else path[i]
  {
    if path != "" {
      SlashesOnly(path[1..]);
      assert Normalized(path) == [if path[0] == '\\' then '/' else path[0]] + Normalized(path[1..]);
    }
  }

  // An error is remembered until the bundle is built, and no module is added after it.
  function InsertModule(b: Builder, dotted: string, source: Contents, package: bool): Builder {
    if b.error.Some? then b
    else
      match ValidateDotted(dotted)
      case Some(error) => b.(error := Some(error))
      case None =>
        var origin := Origin(dotted, package);
        b.(files := b.files[origin := source], modules := b.modules[dotted := Module(source, origin, package)])
  }

  function InsertEntry(b: Builder, relative: string, contents: Contents): (Builder, Option<Error>) {
    var path := Normalized(relative);
    var b1 := b.(files := b.files[path := contents]);
    if !IsSource(path) then (b1.(data := b.data[path := contents]), None)
    else
      match EntryOf(path)
      case None => (b1, Some(BadName(path)))
      case Some(entry) =>
        if !contents.isText then (b1, Some(NotText(path)))
        else (InsertModule(b1, entry.dotted, contents, entry.package), None)
  }

  function InsertData(b: Builder, path: string, bytes: Contents): Builder {
    b.(data := b.data[Normalized(path) := bytes], files := b.files[Normalized(path) := bytes])
  }

  datatype File = File(path: string, contents: Contents)

  // Reads files into a builder until one is refused.
  function Fill(files: seq<File>): (Builder, Option<Error>) {
    if files == [] then (EMPTY, None)
    else
      var (b, error) := Fill(files[..|files| - 1]);
      if error.Some? then (b, error)
      else InsertEntry(b, files[|files| - 1].path, files[|files| - 1].contents)
  }

  // ----- what filling from files guarantees --------------------------------------------------

  lemma {:induction false} EmptyIsInvalid()
    ensures ValidateDotted("").Some?
  {
  }

  lemma {:induction false} EntryStands(b: Builder, f: File, path: string)
    requires InsertEntry(b, f.path, f.contents).1.None?
    ensures var after := InsertEntry(b, f.path, f.contents).0;
            && (path == Normalized(f.path) ==> path in after.files && after.files[path] == f.contents)
            && (path == Normalized(f.path) && !IsSource(path) ==> path in after.data && after.data[path] == f.contents)
            && (path != Normalized(f.path) ==>
                 && (path in after.files <==> path in b.files)
                 && (path in b.files ==> after.files[path] == b.files[path])
                 && (path in after.data <==> path in b.data)
                 && (path in b.data ==> after.data[path] == b.data[path]))
            && (IsSource(path) ==> (path in after.data <==> path in b.data))
  {
    var own := Normalized(f.path);
    hide Normalized, EntryOf, Origin, ValidateDotted;
    EmptyIsInvalid();
    if IsSource(own) && EntryOf(own).value.dotted != "" {
      OriginOfEntry(own);
    }
  }

  // Every file stands in the bundle with its own contents unless a later one has the same path, and
  // exactly those that are not sources are data.
  lemma {:induction false} LastFileStands(files: seq<File>, i: nat)
    requires Fill(files).1.None? && i < |files|
    requires forall j :: i < j < |files| ==> Normalized(files[j].path) != Normalized(files[i].path)
    ensures var path := Normalized(files[i].path);
            && path in Fill(files).0.files && Fill(files).0.files[path] == files[i].contents
            && (IsSource(path) <==> path !in Fill(files).0.data)
            && (!IsSource(path) ==> Fill(files).0.data[path] == files[i].contents)
  {
    hide InsertEntry, Normalized, IsSource;
    var path, before := Normalized(files[i].path), files[..|files| - 1];
    EntryStands(Fill(before).0, files[|files| - 1], path);
    if IsSource(path) {
      SourcesAreNotData(files, path);
    }
    if i < |before| {
      LastFileStands(before, i);
    }
  }

  lemma {:induction false} SourcesAreNotData(files: seq<File>, path: string)
    requires Fill(files).1.None? && IsSource(path)
    ensures path !in Fill(files).0.data
  {
    if files != [] {
      SourcesAreNotData(files[..|files| - 1], path);
      EntryStands(Fill(files[..|files| - 1]).0, files[|files| - 1], path);
      hide InsertEntry, Normalized, IsSource;
    }
  }

  predicate Accepted(f: File) {
    IsSource(Normalized(f.path)) ==> EntryOf(Normalized(f.path)).Some? && f.contents.isText
  }

  predicate Bare(f: File) {
    Normalized(f.path) == INIT + PY
  }

  lemma {:induction false} EntryError(b: Builder, f: File)
    ensures InsertEntry(b, f.path, f.contents).1.None? <==> Accepted(f)
    ensures Accepted(f) ==>
              (InsertEntry(b, f.path, f.contents).0.error.Some? <==> b.error.Some? || Bare(f))
  {
    var path := Normalized(f.path);
    assert IsSource(INIT + PY);
    hide Normalized, EntryOf, Origin, INIT, PY, IsSource;
    EmptyIsInvalid();
    if IsSource(path) && EntryOf(path).Some? {
      BareInitialiser(path);
      if EntryOf(path).value.dotted != "" {
        OriginOfEntry(path);
      }
    }
    hide ValidateDotted;
  }

  // Reading fails exactly if some source has a bad name or is not text; otherwise the bundle is
  // spoilt exactly by an initialiser outside every directory.
  lemma {:induction false} FillErrors(files: seq<File>)
    ensures Fill(files).1.None? <==> forall i :: 0 <= i < |files| ==> Accepted(files[i])
    ensures Fill(files).1.None? ==>
              (Fill(files).0.error.Some? <==> exists i :: 0 <= i < |files| && Bare(files[i]))
  {
    if files != [] {
      FillErrors(files[..|files| - 1]);
      EntryError(Fill(files[..|files| - 1]).0, files[|files| - 1]);
      hide InsertEntry, Accepted, Bare;
      assert files == files[..|files| - 1] + [files[|files| - 1]];
    }
  }

  datatype Addition = Addition(dotted: string, source: Contents, package: bool)

  function AddAll(adds: seq<Addition>): Builder {
    if adds == [] then EMPTY
    else
      var last := adds[|adds| - 1];
      InsertModule(AddAll(adds[..|adds| - 1]), last.dotted, last.source, last.package)
  }

  // Of several bad names the first is the one reported, and without one every module is there.
  lemma {:induction false} FirstBadNameIsReported(adds: seq<Addition>, i: nat)
    requires i < |adds| && forall j :: 0 <= j < i ==> ValidateDotted(adds[j].dotted).None?
    ensures ValidateDotted(adds[i].dotted).Some? ==> AddAll(adds).error == ValidateDotted(adds[i].dotted)
    ensures i == |adds| - 1 && ValidateDotted(adds[i].dotted).None? ==>
              AddAll(adds).error.None? && forall j :: 0 <= j < |adds| ==> adds[j].dotted in AddAll(adds).modules
    decreases |adds|
  {
    hide ValidateDotted, Origin;
    var before := adds[..|adds| - 1];
    if i < |before| {
      FirstBadNameIsReported(before, i);
    } else if before != [] {
      FirstBadNameIsReported(before, |before| - 1);
      assert forall j :: 0 <= j < |before| ==> adds[j] == before[j];
    }
  }

  // ----- building ------------------------------------------------------------------------------

  predicate IsPackage(modules: map<string, Module>, d: string) {
    d in modules && modules[d].package
  }

  predicate ChainOfPackages(modules: map<string, Module>, d: string)
    decreases |d|
  {
    match Parent(d)
    case None => true
    case Some(pair) => IsPackage(modules, pair.0) && ChainOfPackages(modules, pair.0)
  }

  // Every proper prefix of every module is a package of the bundle.
  predicate Rooted(modules: map<string, Module>) {
    forall d, i :: d in modules && 0 <= i < |Prefixes(d)| - 1 ==> IsPackage(modules, Prefixes(d)[i])
  }

  lemma {:induction false} ChainIsPrefixes(modules: map<string, Module>, d: string)
    ensures ChainOfPackages(modules, d) <==>
              forall i :: 0 <= i < |Prefixes(d)| - 1 ==> IsPackage(modules, Prefixes(d)[i])
    decreases |d|
  {
    var all := Prefixes(d);
    var n := |all|;
    ParentOfPrefix(d, n - 1);
    if n > 1 {
      ChainIsPrefixes(modules, all[n - 2]);
      PrefixesOfPrefix(d, n - 2);
      hide Prefixes, IsPackage, Parent;
      assert forall i :: 0 <= i < n - 2 ==> all[..n - 1][i] == all[i];
    }
  }

  datatype Bundle = Bundle(
    root: Option<string>, modules: map<string, Module>, data: map<string, Contents>, files: map<string, Contents>)

  function Roots(modules: map<string, Module>): set<string> {
    set d | d in modules && '.' !in d
  }

  lemma {:induction false} HeadIsRoot(modules: map<string, Module>, d: string)
    requires Rooted(modules) && d in modules
    ensures Head(d) in Roots(modules)
  {
    ParentOfPrefix(d, 0);
    HeadIsFirstComponent(d);
    if |Prefixes(d)| == 1 {
      assert Prefixes(d)[0] == d;
    } else {
      assert IsPackage(modules, Prefixes(d)[0]);
    }
  }

  // A built bundle has a root exactly if it is not empty and every name in it is under that root.
  lemma {:induction false} OneRoot(modules: map<string, Module>, root: string)
    requires Rooted(modules)
    ensures Roots(modules) == {root} <==> modules != map[] && forall d :: d in modules ==> Head(d) == root
  {
    forall d | d in modules
      ensures Head(d) in Roots(modules)
    {
      HeadIsRoot(modules, d);
    }
    forall d | d in Roots(modules)
      ensures Head(d) == d
    {
      HeadIsFirstComponent(d);
      SplitWhole(d, '.');
    }
    if modules != map[] {
      var d :| d in modules;
      assert Head(d) in Roots(modules);
    }
    hide Head, Rooted;
  }
}
