/** What a host and its guests can rely on over any sequence of imports. */
module ImportLaws {
  import opened Wrappers
  import opened Names
  import opened Importer

  // ----- reachable states ---------------------------------------------------------------------

  lemma {:induction false} RunAppend(b: Bindings, st: State, first: seq<Call>, rest: seq<Call>)
    requires Inv(b, st) && MAIN < |st.heap|
    ensures Run(b, st, first + rest) == Run(b, Run(b, st, first), rest)
    decreases |first|
  {
    if first == [] {
      assert first + rest == rest;
    } else {
      assert (first + rest)[1..] == first[1..] + rest;
      RunAppend(b, Step(b, st, first[0]), first[1..], rest);
    }
  }

  // With well-formed bindings none of the importer's internal errors is ever raised, at any depth
  // of nested imports, and the cache only ever holds objects made for their name by the preferred source.
  lemma {:induction false} NoInternalError(b: Bindings, calls: seq<Call>)
    requires b.Valid()
    ensures var st := Run(b, Init(), calls);
            && !st.faulted && Inv(b, st)
            && forall d :: d in st.realised ==> st.heap[st.realised[d]].kind == b.Preferred(d)
  {
    assert Frame(b, Init(), Run(b, Init(), calls), {MAIN}, {});
  }

  // Section 5.3.1 of the Python Language Reference: what is in the module cache when a call
  // returns stays there as the same object, and its code never runs again.
  lemma {:induction false} CacheIsPermanent(b: Bindings, calls: seq<Call>, k: nat)
    requires k <= |calls|
    ensures var early, late := Run(b, Init(), calls[..k]), Run(b, Init(), calls);
            SameCache(early, late) && SameAttempts(early, late)
  {
    hide Run, LinksNew, KeepsLinks, HeapGrows;
    RunAppend(b, Init(), calls[..k], calls[k..]);
    assert calls[..k] + calls[k..] == calls;
    assert Frame(b, Run(b, Init(), calls[..k]), Run(b, Init(), calls), {MAIN}, {});
  }

  // A submodule bound in its parent when a call returns stays bound.
  lemma {:induction false} LinksArePermanent(b: Bindings, calls: seq<Call>, k: nat, d: Name)
    requires k <= |calls| && Linked(Run(b, Init(), calls[..k]), d)
    ensures Linked(Run(b, Init(), calls), d)
  {
    hide Run, Linked, Frame;
    var early, late := Run(b, Init(), calls[..k]), Run(b, Init(), calls);
    RunAppend(b, Init(), calls[..k], calls[k..]);
    assert calls[..k] + calls[k..] == calls;
    MainStays(b, Init(), early, {MAIN});
    MainKeepsLink(b, early, late, d);
  }

  lemma {:induction false} MainStays(b: Bindings, st: State, st1: State, running: set<Ref>)
    requires Frame(b, st, st1, running, {}) && MAIN < |st.heap| && st.heap[MAIN].kind == Main
    ensures Inv(b, st1) && MAIN < |st1.heap| && st1.heap[MAIN].kind == Main
  {
    hide KeepsLinks, LinksNew, SameAttempts, SameCache, NewPreferred, Inv;
  }

  // The main namespace is no module's, so what runs in it moves no link.
  lemma {:induction false} MainKeepsLink(b: Bindings, st: State, st1: State, d: Name)
    requires Inv(b, st) && Frame(b, st, st1, {MAIN}, {}) && MAIN < |st.heap| && st.heap[MAIN].kind == Main
    requires Linked(st, d)
    ensures Linked(st1, d)
  {
    hide LinksNew, SameAttempts, SameCache, HeapGrows, NewPreferred;
    var parent := Parent(d).value.0;
    assert Fits(b, parent, st.heap[st.realised[parent]].kind);
    assert !ParentIn(st, d, {MAIN});
  }

  // ----- one import -------------------------------------------------------------------------------

  // Section 5.4.2 of the Python Language Reference: an import succeeds exactly when every prefix
  // of the name is realised, and then each prefix is bound in the one before it.
  lemma {:induction false} ImportOutcome(b: Bindings, st: State, d: Name)
    requires Inv(b, st)
    ensures var (after, r) := ImportModule(b, st, d);
            && (r.Ok? <==> PrefixesRealised(after, d, |Prefixes(d)|))
            && (r.Ok? ==> Chain(after, d, 0) && after.realised[d] == r.value)
  {
  }

  function Follow(st: State, ref: Ref, path: seq<string>): Option<Value>
    decreases |path|
  {
    if path == [] then Some(Module(ref))
    else if ref < |st.heap| && path[0] in st.heap[ref].attrs then
      match st.heap[ref].attrs[path[0]]
      case Module(next) => Follow(st, next, path[1..])
      case Plain => if |path| == 1 then Some(Plain) else None
    else None
  }

  lemma {:induction false} FollowChain(b: Bindings, st: State, d: Name, i: nat)
    requires Inv(b, st) && Chain(st, d, 0) && i < |Prefixes(d)|
    ensures |Prefixes(d)| == |Split(d, '.')|
    ensures Follow(st, st.realised[Prefixes(d)[i]], Split(d, '.')[i + 1..]) == Some(Module(st.realised[d]))
    decreases |Prefixes(d)| - i
  {
    PrefixesAreComponentPrefixes(d);
    if i + 1 < |Prefixes(d)| {
      var path := Split(d, '.')[i + 1..];
      ParentOfPrefix(d, i + 1);
      assert Linked(st, Prefixes(d)[i + 1]);
      assert path[0] == Split(d, '.')[i + 1] && path[1..] == Split(d, '.')[i + 2..];
      FollowChain(b, st, d, i + 1);
    }
  }

  // `import a.b.c` hands back the head module, and following the remaining components as attributes
  // from it ends at the very object cached for the whole name.
  lemma {:induction false} HeadLeadsToLeaf(b: Bindings, st: State, package: string, name: string, level: nat)
    requires Inv(b, st)
    ensures var target := Resolve(b, st, package, name, level);
            var (after, r) := Dispatch(b, st, package, name, level, []);
            target.Resolved? && r.Ok? ==>
              && r.value.Module? && target.name in after.realised
              && Follow(after, r.value.ref, Split(target.name, '.')[1..])
                   == Some(Module(after.realised[target.name]))
  {
    hide Frame, Expanded, Inv, Resolve;
    var target := Resolve(b, st, package, name, level);
    var (after, r) := Dispatch(b, st, package, name, level, []);
    if target.Resolved? && r.Ok? {
      assert Served(after, target.name, [], r);
      hide Dispatch;
      FrameGives(b, st, after);
      LeafBehindHead(b, after, target.name);
    }
  }

  lemma {:induction false} LeafBehindHead(b: Bindings, st: State, d: Name)
    requires Inv(b, st) && Chain(st, d, 0)
    ensures Head(d) in st.realised && d in st.realised
    ensures Follow(st, st.realised[Head(d)], Split(d, '.')[1..]) == Some(Module(st.realised[d]))
  {
    hide Linked, Follow;
    ParentOfPrefix(d, 0);
    assert Prefixes(d)[0] in st.realised && Prefixes(d)[|Prefixes(d)| - 1] in st.realised;
    FollowChain(b, st, d, 0);
  }

  // The statement `import a.b.c` binds the first component to the head module.
  lemma {:induction false} ImportStatementBindsHead(b: Bindings, st: State, self: Ref, name: string)
    requires Inv(b, st) && self < |st.heap|
    ensures var (after, completed) := ExecStmt(b, st, self, Import(name, 0, []));
            Resolve(b, st, st.heap[self].package, name, 0).Resolved? && completed ==>
              && self < |after.heap| && Head(name) in after.realised && Head(name) in after.heap[self].attrs
              && after.heap[self].attrs[Head(name)] == Module(after.realised[Head(name)])
  {
    hide Frame, Exec;
    var package := st.heap[self].package;
    if Resolve(b, st, package, name, 0).Resolved? {
      var (st1, r) := Dispatch(b, st, package, name, 0, []);
      assert Served(st1, name, [], r);
      assert Frame(b, st, st1, {}, {});
      FrameGives(b, st, st1);
      hide Dispatch, Resolve, Inv;
    }
  }

  lemma {:induction false} SetAttrAgain(st: State, d: Name)
    requires Linked(st, d)
    ensures LinkParent(st, d, st.realised[d]) == Ok(st)
  {
    var (parent, last) := Parent(d).value;
    var obj := st.heap[st.realised[parent]];
    assert obj.attrs[last := Module(st.realised[d])] == obj.attrs;
    assert st.heap[st.realised[parent] := obj] == st.heap;
    assert st.bound + {(st.realised[parent], d)} == st.bound;
  }

  lemma {:induction false} ReimportPrefix(b: Bindings, st: State, d: Name)
    requires Inv(b, st) && d in st.realised && (Parent(d).Some? ==> Linked(st, d))
    ensures ImportPrefix(b, st, d) == (st, Ok(st.realised[d]))
  {
    hide Frame;
    if Parent(d).Some? {
      SetAttrAgain(st, d);
    }
  }

  lemma {:induction false} ReimportFrom(b: Bindings, st: State, d: Name, i: nat)
    requires Inv(b, st) && Chain(st, d, 0) && i < |Prefixes(d)|
    ensures ImportFrom(b, st, d, i) == (st, Ok(st.realised[d]))
    decreases |Prefixes(d)| - i
  {
    hide Frame, Linked, ImportFrom, ImportPrefix, Inv;
    ParentOfPrefix(d, i);
    ReimportPrefix(b, st, Prefixes(d)[i]);
    ImportUnfolds(b, st, d, i);
    if i + 1 < |Prefixes(d)| {
      ReimportFrom(b, st, d, i + 1);
    }
  }

  lemma {:induction false} ImportUnfolds(b: Bindings, st: State, d: Name, i: nat)
    requires Inv(b, st) && i < |Prefixes(d)|
    ensures var (st1, r) := ImportPrefix(b, st, Prefixes(d)[i]);
            && Inv(b, st1)
            && ImportFrom(b, st, d, i) ==
                 (if r.Err? || i + 1 == |Prefixes(d)| then (st1, r) else ImportFrom(b, st1, d, i + 1))
  {
    FrameGives(b, st, ImportPrefix(b, st, Prefixes(d)[i]).0);
    hide Frame, Linked, ImportPrefix, Inv, Chain, PrefixesRealised;
  }

  // Importing a module again right after it was imported finds the same object and changes nothing.
  lemma {:induction false} ReimportChangesNothing(b: Bindings, st: State, d: Name)
    requires Inv(b, st)
    ensures var r := ImportModule(b, st, d); r.1.Ok? ==> ImportModule(b, r.0, d) == r
  {
    if ImportModule(b, st, d).1.Ok? {
      ReimportFrom(b, ImportModule(b, st, d).0, d, 0);
    }
  }

  // While the body of a module runs, importing that module finds the unfinished object.
  lemma {:induction false} CycleFindsItself(b: Bindings, st: State, d: Name, source: Source, done: seq<Stmt>)
    requires Inv(b, st) && d in b.Names() && d !in st.realised && b.Preferred(d) == BundleSource
    ensures Inv(b, BeginBundle(st, d, source)) && |st.heap| < |BeginBundle(st, d, source).heap|
    ensures var self := |st.heap|;
            var running := Exec(b, BeginBundle(st, d, source), self, done).0;
            Realise(b, running, d) == (running, Ok(self))
  {
    BeginBundleFrame(b, st, d, source);
    hide BeginBundle;
    assert d in BeginBundle(st, d, source).realised;
  }

  // A denied component prefix stops the import before anything happens, however the name is spelled.
  lemma {:induction false} DeniedImportChangesNothing(
    b: Bindings, st: State, package: string, name: string, level: nat, fromlist: seq<string>, k: nat)
    requires Inv(b, st)
    requires level > 0 ==> Absolute(package, name, level).Ok?
    requires var d := if level == 0 then name else Absolute(package, name, level).value;
             1 <= k <= |Split(d, '.')| && Join(Split(d, '.')[..k], '.') in b.denied
    ensures var d := if level == 0 then name else Absolute(package, name, level).value;
            Dispatch(b, st, package, name, level, fromlist) == (st, Err(ImportError(d, Denied)))
  {
    var d := if level == 0 then name else Absolute(package, name, level).value;
    DeniedByComponents(d, b.denied);
  }

  // A failed import takes out the failing module only: every module realised by its code stays.
  lemma {:induction false} FailureKeepsOthers(b: Bindings, st: State, d: Name, e: Name)
    requires Inv(b, st) && d !in st.realised && d in b.Names() && b.Preferred(d) == BundleSource
    requires d in b.sources[d].modules && b.sources[d].id in b.prepared
    requires b.sources[d].modules[d].compiles && e != d
    ensures var source := b.sources[d].modules[d];
            var begun := BeginBundle(st, d, source);
            && Inv(b, begun) && |st.heap| < |begun.heap|
            && var ran := Exec(b, begun, |st.heap|, source.body);
            && (e in Realise(b, st, d).0.realised <==> e in ran.0.realised)
            && (e in ran.0.realised ==> Realise(b, st, d).0.realised[e] == ran.0.realised[e])
            && (d in Realise(b, st, d).0.realised <==> ran.1)
  {
    var source := b.sources[d].modules[d];
    BeginBundleFrame(b, st, d, source);
    hide BeginBundle;
    assert BeginBundle(st, d, source).realised[d] == |st.heap|;
  }

  lemma {:induction false} PreferredSource(b: Bindings, st: State, p: Name)
    requires Inv(b, st) && p in b.Names() && p !in st.realised && b.Preferred(p) == BundleSource
    ensures p in b.sources && Realise(b, st, p) == RealiseBundle(b, st, p)
    ensures Inv(b, Realise(b, st, p).0)
  {
    hide Exec, RealiseBundle;
    assert Frame(b, st, Realise(b, st, p).0, {}, {p});
  }

  lemma {:induction false} ExpandUnfolds(b: Bindings, st: State, ref: Ref, dotted: Name, wanted: seq<string>)
    requires Inv(b, st) && dotted in st.realised && st.realised[dotted] == ref && Chain(st, dotted, 0)
    requires wanted != [] && ref < |st.heap|
    ensures var (st1, result) := ImportModule(b, st, dotted + "." + wanted[0]);
            && Inv(b, st1) && dotted in st1.realised && st1.realised[dotted] == ref && Chain(st1, dotted, 0)
            && Expand(b, st, ref, dotted, wanted) ==
                 (if HasAttr(st, ref, wanted[0]) then Expand(b, st, ref, dotted, wanted[1..])
                  else if result.Err? && !result.error.ImportError? then (st1, Some(result.error))
                  else Expand(b, st1, ref, dotted, wanted[1..]))
  {
    var st1 := ImportModule(b, st, dotted + "." + wanted[0]).0;
    ChainKept(b, st, st1, dotted);
    FrameGives(b, st, st1);
    hide Frame, Expanded, ImportModule, Linked, Chain, Inv;
  }

  // One name of a from-list is left alone if the module has it and imported as a submodule if not.
  lemma {:induction false} ExpandsOne(b: Bindings, st: State, ref: Ref, dotted: Name, w: string)
    requires Inv(b, st) && dotted in st.realised && st.realised[dotted] == ref && Chain(st, dotted, 0)
    requires ref < |st.heap|
    ensures Expand(b, st, ref, dotted, [w]) ==
              if w in st.heap[ref].attrs then (st, None)
              else
                var (st1, r) := ImportModule(b, st, dotted + "." + w);
                (st1, if r.Ok? || r.error.ImportError? then None else Some(r.error))
  {
    var st1 := ImportModule(b, st, dotted + "." + w).0;
    FrameGives(b, st, st1);
    ChainKept(b, st, st1, dotted);
    hide Frame, Linked, Expanded, ImportModule, Inv, Chain, PrefixesRealised;
    assert [w][1..] == [];
    assert Expand(b, st, ref, dotted, []) == (st, None);
    assert Expand(b, st1, ref, dotted, []) == (st1, None);
  }

  lemma {:induction false} FrameGives(b: Bindings, st: State, st': State)
    requires Inv(b, st) && Frame(b, st, st', {}, {})
    ensures Inv(b, st') && SameCache(st, st') && |st.heap| <= |st'.heap|
  {
  }

  // The home of relative imports is the package itself inside a package and the parent inside another
  // module: one dot stands for it, each further dot drops its last component, and the import is refused
  // with more dots than components and is not this importer's to resolve without a home.
  lemma {:induction false} RelativeImportStartsAtHome(b: Bindings, st: State, d: Name, name: string, level: nat)
    requires Inv(b, st) && d in b.Names() && d !in st.realised && b.Preferred(d) == BundleSource
    requires d in b.sources[d].modules && b.sources[d].id in b.prepared && level > 0
    requires Realise(b, st, d).1.Ok?
    ensures var (after, r) := Realise(b, st, d);
            var parts := Split(d, '.');
            var home := if b.sources[d].modules[d].isPackage then d
                        else if |parts| == 1 then "" else Join(parts[..|parts| - 1], '.');
            && r.value < |after.heap|
            && Resolve(b, after, after.heap[r.value].package, name, level) == RelativeName(b, after, home, name, level)
  {
    assert d in b.sources;
    NewObjectPackage(b, st, d);
    ParentDropsLastComponent(d);
    hide Realise, Frame, Inv, Bindings.Names, Bindings.Preferred, Split, Join, Parent, Resolve, RelativeName;
    var (after, r) := Realise(b, st, d);
    ResolveRelative(b, after, after.heap[r.value].package, name, level);
  }

  // What becomes of an absolute name: a denied component prefix refuses it, and the guest serves it if it
  // has a module of the first component or is bound to one.
  ghost function ServedName(b: Bindings, st: State, d: Name): Target {
    var parts := Split(d, '.');
    if exists k :: 1 <= k <= |parts| && Join(parts[..k], '.') in b.denied then Refused(ImportError(d, Denied))
    else if parts[0] in b.specs || parts[0] in b.natives || parts[0] in b.sources || parts[0] in b.extensions
            || parts[0] in st.realised then Resolved(d)
    else Delegated
  }

  lemma {:induction false} AbsoluteNameIsServed(b: Bindings, st: State, package: string, d: Name)
    ensures Resolve(b, st, package, d, 0) == ServedName(b, st, d)
  {
    DeniedByComponents(d, b.denied);
    HeadIsFirstComponent(d);
    hide Split, Join, IsDenied, Head;
  }

  // What becomes of a name relative to a home, by components.
  ghost function RelativeName(b: Bindings, st: State, home: string, name: string, level: nat): Target
    requires level > 0
  {
    var parts := Split(home, '.');
    if home == "" then Delegated
    else if level > |parts| then Refused(ImportError(name, BeyondTop))
    else
      ServedName(b, st, Join(parts[..|parts| - (level - 1)] + (if name == "" then [] else Split(name, '.')), '.'))
  }

  lemma {:induction false} ResolveRelative(b: Bindings, st: State, package: string, name: string, level: nat)
    requires level > 0
    ensures Resolve(b, st, package, name, level) == RelativeName(b, st, package, name, level)
  {
    hide Split, Join, IsDenied, Contains, Head, ServedName;
    var parts := Split(package, '.');
    assert level <= |parts| ==>
        parts[..|parts| - (level - 1)] + [] == parts[..|parts| - (level - 1)];
    if package != "" && level <= |parts| {
      AbsoluteNameIsServed(b, st, package, Absolute(package, name, level).value);
    }
  }

  // An import that is not this guest's to serve is handed on with its name and level, and changes nothing.
  lemma {:induction false} DelegatedImport(
    b: Bindings, st: State, package: string, name: string, level: nat, fromlist: seq<string>)
    requires Inv(b, st) && Resolve(b, st, package, name, level).Delegated?
    ensures Dispatch(b, st, package, name, level, fromlist) ==
              (st, if (name, level) in b.foreign then Ok(Plain) else Err(GuestError))
  {
    hide Frame, Resolve;
  }

  lemma {:induction false} NewObjectPackage(b: Bindings, st: State, d: Name)
    requires Inv(b, st) && d in b.Names() && d !in st.realised && b.Preferred(d) == BundleSource
    requires d in b.sources[d].modules && b.sources[d].id in b.prepared && Realise(b, st, d).1.Ok?
    ensures var (after, r) := Realise(b, st, d);
            r.value < |after.heap| && after.heap[r.value].package == Package(d, b.sources[d].modules[d])
  {
    var source := b.sources[d].modules[d];
    var begun := BeginBundle(st, d, source);
    BeginBundleFrame(b, st, d, source);
    PreferredSource(b, st, d);
    assert begun.heap[|st.heap|].package == Package(d, source);
    hide Realise, Transaction, Package, Inv, BeginBundle;
    if source.compiles {
      assert Frame(b, begun, Exec(b, begun, |st.heap|, source.body).0, {|st.heap|}, {});
    }
    hide Exec, KeepsLinks, LinksNew, SameAttempts, SameCache;
  }

  // ----- what a module ends up with ----------------------------------------------------------------

  predicate Fails(members: seq<Member>) {
    exists i :: 0 <= i < |members| && members[i].Failing?
  }

  // Lazy members are reached through `__getattr__`, which is there if there is one.
  function LazyAttributes(members: seq<Member>): set<string> {
    (set i | 0 <= i < |members| && members[i].Lazy? :: members[i].name) +
    (set i | 0 <= i < |members| && members[i].Lazy? :: "__getattr__")
  }

  lemma {:induction false} LazyNamesAre(members: seq<Member>, name: string)
    ensures name in LazyNames(members) <==> exists i :: 0 <= i < |members| && members[i] == Lazy(name)
    decreases |members|
  {
    if members != [] {
      var rest := members[1..];
      LazyNamesAre(rest, name);
      assert forall i :: 0 < i < |members| ==> members[i] == rest[i - 1];
      if name in LazyNames(rest) {
        var i :| 0 <= i < |rest| && rest[i] == Lazy(name);
        assert members[i + 1] == Lazy(name);
      }
    }
  }

  lemma {:induction false} LazyAttributesAre(members: seq<Member>)
    ensures LazyAttributes(members) ==
              if LazyNames(members) == [] then {} else (set name | name in LazyNames(members)) + {"__getattr__"}
  {
    var lazy := LazyNames(members);
    forall name | name in lazy
      ensures name in LazyAttributes(members) && "__getattr__" in LazyAttributes(members)
    {
      LazyNamesAre(members, name);
      var i :| 0 <= i < |members| && members[i] == Lazy(name);
    }
    forall i | 0 <= i < |members| && members[i].Lazy?
      ensures members[i].name in lazy
    {
      LazyNamesAre(members, members[i].name);
    }
    assert lazy != [] ==> lazy[0] in lazy;
  }

  function DeclaredNames(members: seq<Member>): set<string> {
    set i | 0 <= i < |members| && members[i].Value? :: members[i].name
  }

  lemma {:induction false} DeclareSets(st: State, self: Ref, members: seq<Member>)
    requires self < |st.heap|
    ensures self < |Declare(st, self, members).0.heap|
    ensures Declare(st, self, members).1.Some? <==> Fails(members)
    ensures !Fails(members) ==>
              Declare(st, self, members).0.heap[self].attrs.Keys == st.heap[self].attrs.Keys + DeclaredNames(members)
    decreases |members|
  {
    if members != [] {
      var rest := members[1..];
      assert members == [members[0]] + rest;
      assert Fails(members) <==> members[0].Failing? || Fails(rest);
      if !members[0].Failing? {
        var next := if members[0].Value? then SetAttr(st, self, members[0].name, Plain) else st;
        DeclareSets(next, self, rest);
        DeclaredNext(members);
      }
    }
  }

  lemma {:induction false} DeclaredNext(members: seq<Member>)
    requires members != []
    ensures DeclaredNames(members) ==
              (if members[0].Value? then {members[0].name} else {}) + DeclaredNames(members[1..])
  {
    var rest := members[1..];
    forall name | name in DeclaredNames(members)
      ensures name in (if members[0].Value? then {members[0].name} else {}) + DeclaredNames(rest)
    {
      var i :| 0 <= i < |members| && members[i].Value? && members[i].name == name;
      assert i > 0 ==> rest[i - 1] == members[i];
    }
    forall name | name in DeclaredNames(rest)
      ensures name in DeclaredNames(members)
    {
      var i :| 0 <= i < |rest| && rest[i].Value? && rest[i].name == name;
      assert members[i + 1] == rest[i];
    }
  }

  lemma {:induction false} BindAllSets(st: State, self: Ref, names: seq<string>)
    requires self < |st.heap|
    ensures self < |BindAll(st, self, names).heap|
    ensures BindAll(st, self, names).heap[self].attrs.Keys == st.heap[self].attrs.Keys + set name | name in names
    decreases |names|
  {
    if names != [] {
      assert names == [names[0]] + names[1..];
      BindAllSets(SetAttr(st, self, names[0], Plain), self, names[1..]);
    }
  }

  function Plainly(names: set<string>): map<string, Value> {
    map name | name in names :: Plain
  }

  // The attributes a module starts with.
  lemma {:induction false} SeedsAre()
    ensures Seeds(Host) == Plainly({"__name__", "__doc__", "__builtins__", "__package__", "__loader__", "__spec__"})
    ensures var names := {"__name__", "__builtins__", "__file__", "__package__", "__loader__", "__spec__"};
            && Seeds(BundleSource) == Plainly(names)
            && Seeds(BundleSource)["__path__" := Plain] == Plainly(names + {"__path__"})
    ensures Seeds(Native) == map[] && Seeds(Extension) == map[]
  {
  }

  // A host module is realised exactly if none of its members fails, and then its attributes are exactly
  // the six every host module starts with and its declared members: the lazy ones are reached through
  // `__getattr__`.
  lemma {:induction false} HostModuleHasItsMembers(b: Bindings, st: State, d: Name)
    requires Inv(b, st) && d in b.specs && d !in st.realised
    ensures var (after, r) := Realise(b, st, d);
            var members := b.specs[d];
            && (r.Ok? <==> !Fails(members))
            && (r.Ok? ==>
                 && r.value == |st.heap| && r.value < |after.heap|
                 && after.heap[r.value].attrs.Keys ==
                      {"__name__", "__doc__", "__builtins__", "__package__", "__loader__", "__spec__"} +
                      DeclaredNames(members) + LazyAttributes(members))
  {
    HostSteps(b, st, d);
    SeedsAre();
    var self, members := |st.heap|, b.specs[d];
    hide Frame, Transaction, Exec, Linked, Inv, Begin, Seeds, Realise, RealiseHost;
    MembersSet(Begin(st, d, Host, ""), self, members);
    hide BindLazy, DeclaredNames, Fails, LazyAttributes;
    var after := Realise(b, st, d).0;
    if !Fails(members) {
      assert after == BindLazy(Declare(Begin(st, d, Host, ""), self, members).0, self, members);
    }
  }

  lemma {:induction false} MembersSet(st: State, self: Ref, members: seq<Member>)
    requires self < |st.heap|
    ensures var (declared, failed) := Declare(st, self, members);
            && self < |declared.heap|
            && (failed.Some? <==> Fails(members))
            && (failed.None? ==>
                 var after := BindLazy(declared, self, members);
                 && self < |after.heap|
                 && after.heap[self].attrs.Keys ==
                      st.heap[self].attrs.Keys + DeclaredNames(members) + LazyAttributes(members))
  {
    DeclareSets(st, self, members);
    var declared, lazy := Declare(st, self, members).0, LazyNames(members);
    BindAllSets(declared, self, lazy + ["__getattr__"]);
    LazyAttributesAre(members);
    hide Declare, DeclaredNames, Fails, LazyNames, LazyAttributes;
    assert (set name | name in lazy + ["__getattr__"]) == (set name | name in lazy) + {"__getattr__"};
  }

  lemma {:induction false} HostSteps(b: Bindings, st: State, d: Name)
    requires Inv(b, st) && d in b.specs && d !in st.realised
    ensures var self, begun := |st.heap|, Begin(st, d, Host, "");
            && self < |begun.heap|
            && begun.heap[self].attrs.Keys == Seeds(Host).Keys
            && var (declared, failed) := Declare(begun, self, b.specs[d]);
               && self < |declared.heap|
               && Realise(b, st, d) ==
                    (if failed.Some? then (Uncache(declared, d), Err(failed.value))
                     else (BindLazy(declared, self, b.specs[d]), Ok(self)))
  {
    hide Frame, Transaction, Linked;
    DeclareSets(Begin(st, d, Host, ""), |st.heap|, b.specs[d]);
    hide Declare, BindLazy, DeclaredNames, Fails, Seeds;
  }
}
