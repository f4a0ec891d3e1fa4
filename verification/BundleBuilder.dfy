/** The bundle builder, whose maps are filled in place, and the check made when a bundle is built. */
module BundleBuilder {
  import opened Wrappers
  import opened Names
  import opened BundleNames
  import opened Bundles

  class BundleBuilder {
    var modules: map<string, Module>
    var data: map<string, Contents>
    var files: map<string, Contents>
    var error: Option<Error>

    constructor ()
      ensures Snap() == EMPTY
    {
      modules, data, files, error := map[], map[], map[], None;
    }

    ghost function Snap(): Builder
      reads this
    {
      Builder(modules, data, files, error)
    }

    method AddModule(dotted: string, source: Contents, package: bool)
      modifies this
      ensures Snap() == InsertModule(old(Snap()), dotted, source, package)
    {
      if error.Some? {
        return;
      }
      var invalid := ValidateDotted(dotted);
      if invalid.Some? {
        error := invalid;
        return;
      }
      var origin := Origin(dotted, package);
      files := files[origin := source];
      modules := modules[dotted := Module(source, origin, package)];
    }

    method AddEntry(relative: string, contents: Contents) returns (refused: Option<Error>)
      modifies this
      ensures (Snap(), refused) == InsertEntry(old(Snap()), relative, contents)
    {
      hide Normalized, ValidateDotted, Origin;
      var normalized := Normalized(relative);
      files := files[normalized := contents];
      if !IsSource(normalized) {
        data := data[normalized := contents];
        return None;
      }
      var parts := Components(normalized);
      for i := 0 to |parts|
        invariant Identifiers(parts[..i])
      {
        if !IsIdentifier(parts[i]) {
          return Some(BadName(normalized));
        }
      }
      assert parts[..|parts|] == parts;
      var package := parts[|parts| - 1] == INIT;
      var dotted := JoinDots(if package then parts[..|parts| - 1] else parts);
      hide Components, INIT, JoinDots;
      assert EntryOf(normalized) == Some(Entry(dotted, package));
      if !contents.isText {
        return Some(NotText(normalized));
      }
      AddModule(dotted, contents, package);
      return None;
    }

    method AddData(path: string, bytes: Contents)
      modifies this
      ensures Snap() == InsertData(old(Snap()), path, bytes)
    {
      var normalized := Normalized(path);
      data := data[normalized := bytes];
      files := files[normalized := bytes];
    }

    method FillFrom(entries: seq<File>) returns (refused: Option<Error>)
      requires Snap() == EMPTY
      modifies this
      ensures (Snap(), refused) == Fill(entries)
    {
      hide InsertEntry;
      assert entries[..|entries|] == entries;
      for i := 0 to |entries|
        invariant Fill(entries[..i]) == (Snap(), None)
      {
        assert entries[..i + 1][..i] == entries[..i];
        refused := AddEntry(entries[i].path, entries[i].contents);
        if refused.Some? {
          FillStops(entries, i + 1);
          return;
        }
      }
      return None;
    }

    // Climbs from a name to its parents while there is one.
    method HasParents(dotted: string) returns (ok: bool)
      ensures ok <==> ChainOfPackages(modules, dotted)
    {
      var parent := dotted;
      while Parent(parent).Some?
        invariant ChainOfPackages(modules, parent) <==> ChainOfPackages(modules, dotted)
        decreases |parent|
      {
        var prefix := Parent(parent).value.0;
        if prefix !in modules || !modules[prefix].package {
          return false;
        }
        parent := prefix;
      }
      return true;
    }

    // Building succeeds exactly if no error was remembered and every proper prefix of every module
    // is a package; the root is the name all modules are under, if there is one.
    method Build() returns (r: Result<Bundle, Error>)
      ensures r.Ok? <==> error.None? && Rooted(modules)
      ensures r.Ok? ==> r.value.modules == modules && r.value.data == data && r.value.files == files
      ensures r.Ok? ==>
                forall root :: r.value.root == Some(root) <==>
                  modules != map[] && forall d :: d in modules ==> Head(d) == root
    {
      if error.Some? {
        return Err(error.value);
      }
      hide Head, Prefixes;
      var names := modules.Keys;
      while names != {}
        invariant names <= modules.Keys
        invariant forall d :: d in modules.Keys - names ==> ChainOfPackages(modules, d)
      {
        var d :| d in names;
        var ok := HasParents(d);
        if !ok {
          ChainIsPrefixes(modules, d);
          return Err(NoParent(d));
        }
        names := names - {d};
      }
      AllRooted(modules);
      var roots := Roots(modules);
      var root := None;
      if |roots| == 1 {
        var only :| only in roots;
        Singleton(roots, only);
        root := Some(only);
      }
      RootIsOnly(modules, roots, root);
      return Ok(Bundle(root, modules, data, files));
    }
  }

  lemma {:induction false} FillStops(files: seq<File>, n: nat)
    requires n <= |files| && Fill(files[..n]).1.Some?
    ensures Fill(files) == Fill(files[..n])
  {
    if n == |files| {
      assert files[..n] == files;
    } else {
      assert files[..|files| - 1][..n] == files[..n];
      FillStops(files[..|files| - 1], n);
    }
  }

  lemma {:induction false} AllRooted(modules: map<string, Module>)
    requires forall d :: d in modules ==> ChainOfPackages(modules, d)
    ensures Rooted(modules)
  {
    forall d, i | d in modules && 0 <= i < |Prefixes(d)| - 1
      ensures IsPackage(modules, Prefixes(d)[i])
    {
      ChainIsPrefixes(modules, d);
    }
  }

  lemma {:induction false} Singleton(s: set<string>, x: string)
    requires |s| == 1 && x in s
    ensures s == {x}
  {
    assert |s - {x}| == 0;
    assert s == (s - {x}) + {x};
  }

  lemma {:induction false} RootIsOnly(modules: map<string, Module>, roots: set<string>, root: Option<string>)
    requires Rooted(modules) && roots == Roots(modules)
    requires if |roots| == 1 then root.Some? && roots == {root.value} else root == None
    ensures forall r :: root == Some(r) <==> modules != map[] && forall d :: d in modules ==> Head(d) == r
  {
    forall r
      ensures root == Some(r) <==> modules != map[] && forall d :: d in modules ==> Head(d) == r
    {
      OneRoot(modules, r);
      assert roots == {r} ==> |roots| == 1 && r in roots;
    }
  }
}
