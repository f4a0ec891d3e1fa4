/**
 When a submodule is an attribute of its package.  The importer binds a submodule each time it imports
 it, but a package that failed and is made anew starts without the submodules of the object it replaces.
 */
module Submodules {
  import opened Wrappers
  import opened Names
  import opened Importer
  import ImportLaws

  // ----- what a module's own code binds --------------------------------------------------------

  // The name and the package a module's code runs under.
  datatype Home = Home(name: Name, package: string)

  function HomeOf(obj: Object): Home {
    Home(obj.name, obj.package)
  }

  // `from . import` in a package, or the same by its full name: it binds what the module has already.
  predicate FromItself(home: Home, name: string, level: nat) {
    if level == 0 then name == home.name
    else home.package != "" && Absolute(home.package, name, level) == Ok(home.name)
  }

  lemma {:induction false} DotIsItself(d: Name)
    requires d != ""
    ensures FromItself(Home(d, d), "", 1)
  {
    var parts := Split(d, '.');
    assert parts[..|parts|] == parts;
  }

  predicate Targets(name: string, fromlist: seq<string>, w: string) {
    if fromlist == [] then Head(name) == w else "*" in fromlist || w in fromlist
  }

  predicate Binds(home: Home, stmt: Stmt, w: string)
    decreases stmt
  {
    match stmt
    case Import(name, level, fromlist) =>
      Targets(name, fromlist, w) && (fromlist == [] || !FromItself(home, name, level))
    case Bind(name) => name == w
    case Export(_) => w == "__all__"
    case Raise => false
    case Try(body, handler) => BindsAny(home, body, w) || BindsAny(home, handler, w)
  }

  predicate BindsAny(home: Home, stmts: seq<Stmt>, w: string)
    decreases stmts
  {
    stmts != [] && (Binds(home, stmts[0], w) || BindsAny(home, stmts[1..], w))
  }

  predicate Declares(members: seq<Member>, w: string) {
    w == "__getattr__" || exists i :: 0 <= i < |members| && members[i].name == w
  }

  // Nothing in the module's own code can bind the name to anything new, as far as its text tells: a star
  // import from another module could bind any, and what foreign modules bind is not known.
  predicate Silent(b: Bindings, kind: Kind, d: Name, w: string) {
    match kind
    case Host => d in b.specs && !Declares(b.specs[d], w)
    case BundleSource =>
      && d in b.sources && d in b.sources[d].modules
      && var source := b.sources[d].modules[d];
        !BindsAny(Home(d, Package(d, source)), source.body, w)
    case _ => false
  }

  predicate SilentModule(b: Bindings, d: Name, w: string) {
    d in b.Names() && Silent(b, b.Preferred(d), d, w)
  }

  ghost predicate Own(b: Bindings, st: State, self: Ref, w: string) {
    self < |st.heap| && !Silent(b, st.heap[self].kind, st.heap[self].name, w)
  }

  // ----- the invariant -------------------------------------------------------------------------------

  // A module that the own code of an object did not put there was bound by the importer.
  ghost predicate AttrsTidy(b: Bindings, st: State) {
    forall r, w :: 0 <= r < |st.heap| && w in st.heap[r].attrs && st.heap[r].attrs[w].Module? ==>
      Own(b, st, r, w) || (r, st.heap[r].name + "." + w) in st.bound
  }

  // `open` are the names whose realisation is not finished, or not yet followed by the binding.
  ghost predicate ChildTidy(b: Bindings, st: State, open: set<Name>, d: Name)
    requires Inv(b, st) && d in st.realised && Parent(d).Some?
  {
    var (p, w) := Parent(d).value;
    && st.attempts[p] >= 1
    && (p in st.realised ==>
         && (st.attempts[p] == 1 ==> st.realised[p] < st.realised[d])
         && (d !in open ==>
              && (st.realised[p] < st.realised[d] ==> (st.realised[p], d) in st.bound)
              && ((st.realised[p], d) in st.bound ==> Own(b, st, st.realised[p], w) || Attached(st, d))))
  }

  ghost predicate Tidy(b: Bindings, st: State, open: set<Name>) {
    && Inv(b, st) && AttrsTidy(b, st)
    && (forall pair :: pair in st.bound ==> pair.0 < |st.heap|)
    && (forall d :: d in st.realised ==> st.attempts[d] >= 1)
    && (forall d :: d in st.realised && Parent(d).Some? ==> ChildTidy(b, st, open, d))
  }

  lemma {:induction false} TidyWeaken(b: Bindings, st: State, open: set<Name>, more: set<Name>)
    requires Tidy(b, st, open) && open <= more
    ensures Tidy(b, st, more)
  {
    forall d | d in st.realised && Parent(d).Some?
      ensures ChildTidy(b, st, more, d)
    {
      assert ChildTidy(b, st, open, d);
    }
  }

  // A name that is gone, or that has no cached parent, has no binding to wait for.
  lemma {:induction false} TidyClose(b: Bindings, st: State, open: set<Name>, d: Name)
    requires Tidy(b, st, open + {d})
    requires d !in st.realised || Parent(d).None? || Parent(d).value.0 !in st.realised
    ensures Tidy(b, st, open)
  {
    forall e | e in st.realised && Parent(e).Some?
      ensures ChildTidy(b, st, open, e)
    {
      assert ChildTidy(b, st, open + {d}, e);
    }
  }

  function Begun(st: State, d: Name, obj: Object): State {
    State(st.realised[d := |st.heap|], st.heap + [obj], st.attempts + multiset{d}, st.faulted, st.bound)
  }

  lemma {:induction false} TidyBegin(b: Bindings, st: State, open: set<Name>, d: Name, obj: Object)
    requires Tidy(b, st, open) && d in b.Names() && d !in st.realised && ParentsRealised(st, d)
    requires obj.name == d && obj.kind == b.Preferred(d) && forall w :: w in obj.attrs ==> obj.attrs[w] == Plain
    ensures Tidy(b, Begun(st, d, obj), open + {d})
  {
    var begun := Begun(st, d, obj);
    assert Inv(b, begun);
    ParentIsRealised(st, d);
    BegunAttrs(b, st, d, obj);
    hide AttrsTidy, ParentsRealised;
    assert forall e :: e in begun.realised ==> begun.attempts[e] >= 1;
    forall e | e in begun.realised && Parent(e).Some?
      ensures ChildTidy(b, begun, open + {d}, e)
    {
      if e == d {
        BegunItself(b, st, open, d, obj);
      } else {
        assert ChildTidy(b, st, open, e);
        hide ChildTidy, Inv;
        BegunOther(b, st, open, d, obj, e);
      }
    }
    hide ChildTidy, Inv, Begun;
  }

  lemma {:induction false} BegunAttrs(b: Bindings, st: State, d: Name, obj: Object)
    requires AttrsTidy(b, st) && forall w :: w in obj.attrs ==> obj.attrs[w] == Plain
    ensures AttrsTidy(b, Begun(st, d, obj))
  {
    hide Silent;
    var begun := Begun(st, d, obj);
    forall r, w | 0 <= r < |begun.heap| && w in begun.heap[r].attrs && begun.heap[r].attrs[w].Module?
      ensures Own(b, begun, r, w) || (r, begun.heap[r].name + "." + w) in begun.bound
    {
      assert r < |st.heap| && begun.heap[r] == st.heap[r];
    }
  }

  lemma {:induction false} BegunItself(b: Bindings, st: State, open: set<Name>, d: Name, obj: Object)
    requires Inv(b, st) && d !in st.realised && Parent(d).Some? && Parent(d).value.0 in st.realised
    requires st.attempts[Parent(d).value.0] >= 1 && Inv(b, Begun(st, d, obj))
    ensures ChildTidy(b, Begun(st, d, obj), open + {d}, d)
  {
  }

  lemma {:induction false} BegunOther(b: Bindings, st: State, open: set<Name>, d: Name, obj: Object, e: Name)
    requires Inv(b, st) && Inv(b, Begun(st, d, obj)) && d !in st.realised && e in st.realised && Parent(e).Some?
    requires ChildTidy(b, st, open, e) && forall pair :: pair in st.bound ==> pair.0 < |st.heap|
    ensures ChildTidy(b, Begun(st, d, obj), open + {d}, e)
  {
    hide Silent;
    if Parent(e).value.0 == d {
      assert (|st.heap|, e) !in st.bound;
    }
  }

  lemma {:induction false} TidyUncache(b: Bindings, st: State, open: set<Name>, d: Name)
    requires Tidy(b, st, open + {d})
    ensures Tidy(b, Uncache(st, d), open)
  {
    var after := Uncache(st, d);
    forall e | e in after.realised && Parent(e).Some?
      ensures ChildTidy(b, after, open, e)
    {
      assert ChildTidy(b, st, open + {d}, e);
    }
  }

  // Counting another attempt or noting a fault moves nothing.
  lemma {:induction false} TidyNote(b: Bindings, st: State, open: set<Name>, after: State)
    requires Tidy(b, st, open)
    requires after == st.(attempts := after.attempts, faulted := after.faulted)
    requires forall d :: after.attempts[d] >= st.attempts[d]
    ensures Tidy(b, after, open)
  {
    forall e | e in st.realised && Parent(e).Some?
      ensures Inv(b, after) && ChildTidy(b, after, open, e)
    {
      assert ChildTidy(b, st, open, e);
    }
  }

  // Code binds a name in its own object.
  lemma {:induction false} TidyOwn(b: Bindings, st: State, open: set<Name>, self: Ref, w: string, value: Value)
    requires Tidy(b, st, open) && Own(b, st, self, w)
    ensures Tidy(b, SetAttr(st, self, w, value), open)
  {
    var after := SetAttr(st, self, w, value);
    forall e | e in after.realised && Parent(e).Some?
      ensures ChildTidy(b, after, open, e)
    {
      assert ChildTidy(b, st, open, e);
    }
  }

  // The importer binds a submodule.
  lemma {:induction false} TidyLink(b: Bindings, st: State, open: set<Name>, d: Name)
    requires Tidy(b, st, open + {d}) && d in st.realised
    requires Parent(d).Some? && Parent(d).value.0 in st.realised
    ensures Tidy(b, BindChild(st, d, st.realised[d]), open)
  {
    var after := BindChild(st, d, st.realised[d]);
    assert Inv(b, after);
    assert AttrsTidy(b, after) by { hide Silent, ChildTidy; }
    hide AttrsTidy;
    assert forall pair :: pair in after.bound ==> pair.0 < |after.heap|;
    forall e | e in after.realised && Parent(e).Some?
      ensures ChildTidy(b, after, open, e)
    {
      assert ChildTidy(b, st, open + {d}, e);
      hide Inv;
      LinkedChildTidy(b, st, open, d, e);
    }
    hide ChildTidy, Inv, BindChild;
  }

  lemma {:induction false} LinkedChildTidy(b: Bindings, st: State, open: set<Name>, d: Name, e: Name)
    requires Inv(b, st) && d in st.realised && Parent(d).Some? && Parent(d).value.0 in st.realised
    requires e in st.realised && Parent(e).Some? && ChildTidy(b, st, open + {d}, e)
    ensures Inv(b, BindChild(st, d, st.realised[d]))
    ensures ChildTidy(b, BindChild(st, d, st.realised[d]), open, e)
  {
    var (p, w) := Parent(d).value;
    var (q, l) := Parent(e).value;
    assert d == p + "." + w && e == q + "." + l;
    hide Silent;
  }

  // ----- own code ---------------------------------------------------------------------------------------

  lemma {:induction false} TidyBindAll(b: Bindings, st: State, open: set<Name>, self: Ref, names: seq<string>)
    requires Tidy(b, st, open) && self < |st.heap| && forall w :: w in names ==> Own(b, st, self, w)
    ensures Tidy(b, BindAll(st, self, names), open)
    decreases |names|
  {
    hide Tidy, Silent;
    if names != [] {
      assert names[0] in names && forall w :: w in names[1..] ==> w in names;
      TidyOwn(b, st, open, self, names[0], Plain);
      TidyBindAll(b, SetAttr(st, self, names[0], Plain), open, self, names[1..]);
    }
  }

  lemma {:induction false} TidyDeclare(b: Bindings, st: State, open: set<Name>, self: Ref, members: seq<Member>)
    requires Tidy(b, st, open) && self < |st.heap| && forall m :: m in members ==> Own(b, st, self, m.name)
    ensures var after := Declare(st, self, members).0;
            && Tidy(b, after, open) && self < |after.heap| && after.heap[self].name == st.heap[self].name
            && after.heap[self].kind == st.heap[self].kind
    decreases |members|
  {
    hide Tidy, Silent;
    if members != [] && !members[0].Failing? {
      assert members[0] in members;
      if members[0].Value? {
        TidyOwn(b, st, open, self, members[0].name, Plain);
        TidyDeclare(b, SetAttr(st, self, members[0].name, Plain), open, self, members[1..]);
      } else {
        TidyDeclare(b, st, open, self, members[1..]);
      }
    }
  }

  lemma {:induction false} TidyBindFrom(
    b: Bindings, st: State, open: set<Name>, self: Ref, value: Value, names: seq<string>)
    requires Tidy(b, st, open) && self < |st.heap| && forall w :: w in names ==> Own(b, st, self, w)
    requires value.Module? ==> value.ref < |st.heap|
    ensures Tidy(b, BindFrom(st, self, value, names).0, open)
    decreases |names|
  {
    hide Tidy, Silent;
    if names != [] && (value.Plain? || HasAttr(st, value.ref, names[0])) {
      assert names[0] in names && forall w :: w in names[1..] ==> w in names;
      var v := if value.Plain? then Plain else st.heap[value.ref].attrs[names[0]];
      TidyOwn(b, st, open, self, names[0], v);
      TidyBindFrom(b, SetAttr(st, self, names[0], v), open, self, value, names[1..]);
    }
  }

  lemma {:induction false} WantedIn(st: State, ref: Ref, names: seq<string>)
    requires ref < |st.heap|
    ensures forall w :: w in Wanted(st, ref, names) ==> "*" in names || w in names
    ensures forall w :: w in NotStar(names) ==> w in names
    decreases |names|
  {
    if names != [] {
      WantedIn(st, ref, names[1..]);
    }
  }

  lemma {:induction false} TidyBindImport(
    b: Bindings, st: State, open: set<Name>, self: Ref, value: Value, name: string, fromlist: seq<string>)
    requires Tidy(b, st, open) && self < |st.heap|
    requires forall w :: Targets(name, fromlist, w) ==> Own(b, st, self, w)
    requires value.Module? ==> value.ref < |st.heap|
    ensures Tidy(b, BindImport(st, self, value, name, fromlist).0, open)
  {
    hide Tidy, Silent;
    if fromlist == [] {
      TidyOwn(b, st, open, self, Head(name), value);
    } else {
      var names := if value.Module? then Wanted(st, value.ref, fromlist) else NotStar(fromlist);
      WantedIn(st, if value.Module? then value.ref else self, fromlist);
      forall w | w in names
        ensures Own(b, st, self, w)
      {
        assert Targets(name, fromlist, w);
      }
      TidyBindFrom(b, st, open, self, value, names);
    }
  }

  lemma {:induction false} TidyExport(b: Bindings, st: State, open: set<Name>, self: Ref, names: seq<string>)
    requires Tidy(b, st, open) && Own(b, st, self, "__all__")
    ensures Tidy(b, SetExports(st, self, names), open)
  {
    var st1, after := SetAttr(st, self, "__all__", Plain), SetExports(st, self, names);
    TidyOwn(b, st, open, self, "__all__", Plain);
    assert forall r :: 0 <= r < |st1.heap| ==>
      after.heap[r].attrs == st1.heap[r].attrs && after.heap[r].name == st1.heap[r].name
      && after.heap[r].kind == st1.heap[r].kind;
    hide SetExports, SetAttr, Silent;
    forall e | e in after.realised && Parent(e).Some?
      ensures ChildTidy(b, after, open, e)
    {
      assert ChildTidy(b, st1, open, e);
    }
  }

  // ----- new modules -------------------------------------------------------------------------------------

  lemma {:induction false} TidyModule(b: Bindings, st: State, open: set<Name>, d: Name, kind: Kind)
    requires Tidy(b, st, open) && d in b.Names() && d !in st.realised && ParentsRealised(st, d)
    requires kind == b.Preferred(d)
    ensures var begun := Begin(st, d, kind, "");
            && Tidy(b, begun, open + {d})
            && |begun.heap| == |st.heap| + 1 && begun.heap[|st.heap|].name == d && begun.heap[|st.heap|].kind == kind
  {
    var obj := Object(d, kind, "", Seeds(kind), []);
    assert Begin(st, d, kind, "") == Begun(st, d, obj);
    hide Tidy;
    TidyBegin(b, st, open, d, obj);
  }

  lemma {:induction false} TidyBundleModule(b: Bindings, st: State, open: set<Name>, d: Name, source: Source)
    requires Tidy(b, st, open) && d in b.Names() && d !in st.realised && ParentsRealised(st, d)
    requires BundleSource == b.Preferred(d)
    ensures var begun := BeginBundle(st, d, source);
            && Tidy(b, begun, open + {d}) && |begun.heap| == |st.heap| + 1
            && begun.heap[|st.heap|].kind == BundleSource
            && HomeOf(begun.heap[|st.heap|]) == Home(d, Package(d, source))
  {
    var attrs := Seeds(BundleSource);
    var obj := Object(d, BundleSource, Package(d, source),
                      if source.isPackage then attrs["__path__" := Plain] else attrs, []);
    assert BeginBundle(st, d, source) == Begun(st, d, obj);
    hide Tidy;
    TidyBegin(b, st, open, d, obj);
  }

  lemma {:induction false} TidyHost(b: Bindings, st: State, open: set<Name>, d: Name)
    requires Tidy(b, st, open) && d in b.specs && d !in st.realised && ParentsRealised(st, d)
    ensures Tidy(b, RealiseHost(b, st, d).0, open + {d})
  {
    hide Tidy, Transaction, Frame, ParentsRealised, Inv;
    var self, members := |st.heap|, b.specs[d];
    var begun := Begin(st, d, Host, "");
    TidyModule(b, st, open, d, Host);
    hide Begin;
    forall m | m in members
      ensures Own(b, begun, self, m.name)
    {
      var i :| 0 <= i < |members| && members[i] == m;
    }
    TidyDeclare(b, begun, open + {d}, self, members);
    var (declared, failed) := Declare(begun, self, members);
    if failed.Some? {
      TidyWeaken(b, declared, open + {d}, open + {d} + {d});
      TidyUncache(b, declared, open + {d}, d);
    } else if LazyNames(members) != [] {
      LazyDeclared(members);
      TidyBindAll(b, declared, open + {d}, self, LazyNames(members) + ["__getattr__"]);
    }
  }

  lemma {:induction false} LazyDeclared(members: seq<Member>)
    ensures forall w :: w in LazyNames(members) ==> Declares(members, w)
    decreases |members|
  {
    if members != [] {
      LazyDeclared(members[1..]);
      assert members[0] == members[0];
      forall w | w in LazyNames(members)
        ensures Declares(members, w)
      {
        if w in LazyNames(members[1..]) && w != "__getattr__" {
          var i :| 0 <= i < |members[1..]| && members[1..][i].name == w;
          assert members[i + 1].name == w;
        }
      }
    }
  }

  lemma {:induction false} TidyNative(b: Bindings, st: State, open: set<Name>, d: Name)
    requires Tidy(b, st, open) && d in b.natives && d !in b.specs && d !in st.realised && ParentsRealised(st, d)
    ensures Tidy(b, RealiseNative(b, st, d).0, open + {d})
  {
    hide Tidy, Transaction, Frame, ParentsRealised, Inv;
    TidyWeaken(b, st, open, open + {d});
    if b.natives[d].None? {
      TidyModule(b, st, open, d, Native);
    } else {
      TidyNote(b, st, open + {d}, Attempt(st, d));
    }
  }

  lemma {:induction false} TidyExtension(b: Bindings, st: State, open: set<Name>, d: Name)
    requires Tidy(b, st, open) && d in b.Names() && b.Preferred(d) == Extension && d !in st.realised
    requires ParentsRealised(st, d)
    ensures Tidy(b, RealiseExtension(b, st, d).0, open + {d})
  {
    hide Tidy, Transaction, Frame, ParentsRealised, Inv;
    TidyWeaken(b, st, open, open + {d});
    if b.extensions[d].None? {
      TidyModule(b, st, open, d, Extension);
    } else {
      TidyNote(b, st, open + {d}, Attempt(st, d));
    }
  }

  // ----- imports and guest code ----------------------------------------------------------------------------

  lemma {:induction false} TidyInv(b: Bindings, st: State, open: set<Name>)
    requires Tidy(b, st, open)
    ensures Inv(b, st)
  {
  }

  lemma {:induction false} Moved(b: Bindings, st: State, st1: State, running: set<Ref>)
    requires Frame(b, st, st1, running, {})
    ensures Inv(b, st1) && SameCache(st, st1) && HeapGrows(st, st1)
    ensures Unrealised(b, st1) < Unrealised(b, st) || Unrealised(b, st1) == Unrealised(b, st)
    ensures |st.heap| <= |st1.heap|
    ensures forall r, w :: Own(b, st, r, w) ==> Own(b, st1, r, w)
  {
    hide Silent, KeepsLinks, LinksNew, SameAttempts, Inv;
  }

  // Code runs in the main namespace, or in a module that is cached as its own object.
  ghost predicate AtHome(st: State, self: Ref) {
    && self < |st.heap|
    && (st.heap[self].kind == Main ||
        (var d := st.heap[self].name; d in st.realised && st.realised[d] == self && Head(d) in st.realised))
  }

  ghost predicate OwnsAll(b: Bindings, st: State, self: Ref, stmts: seq<Stmt>) {
    AtHome(st, self) && forall w :: BindsAny(HomeOf(st.heap[self]), stmts, w) ==> Own(b, st, self, w)
  }

  ghost predicate Owns(b: Bindings, st: State, self: Ref, stmt: Stmt) {
    AtHome(st, self) && forall w :: Binds(HomeOf(st.heap[self]), stmt, w) ==> Own(b, st, self, w)
  }

  lemma {:induction false} OwnsOn(b: Bindings, st: State, st1: State, self: Ref, stmts: seq<Stmt>)
    requires OwnsAll(b, st, self, stmts) && SameCache(st, st1) && HeapGrows(st, st1)
    ensures OwnsAll(b, st1, self, stmts)
  {
    hide BindsAny, Silent;
    var obj, obj1 := st.heap[self], st1.heap[self];
    assert HomeOf(obj1) == HomeOf(obj) && obj1.kind == obj.kind;
    forall w | BindsAny(HomeOf(obj), stmts, w)
      ensures Own(b, st1, self, w)
    {
      assert Own(b, st, self, w);
    }
  }

  lemma {:induction false} BindsSelfToItself(st: State, self: Ref, names: seq<string>)
    requires self < |st.heap|
    ensures BindFrom(st, self, Module(self), names).0 == st
    decreases |names|
  {
    if names != [] && HasAttr(st, self, names[0]) {
      var obj := st.heap[self];
      assert obj.attrs[names[0] := obj.attrs[names[0]]] == obj.attrs;
      assert SetAttr(st, self, names[0], obj.attrs[names[0]]) == st;
      BindsSelfToItself(st, self, names[1..]);
    }
  }

  // A from-import of a module from itself changes nothing beyond importing the submodules.
  lemma {:induction false} SelfImport(
    b: Bindings, st: State, self: Ref, name: string, level: nat, fromlist: seq<string>)
    requires Inv(b, st) && AtHome(st, self) && st.heap[self].kind != Main && fromlist != []
    requires FromItself(HomeOf(st.heap[self]), name, level)
    ensures ExecStmt(b, st, self, Import(name, level, fromlist)).0 ==
              Dispatch(b, st, st.heap[self].package, name, level, fromlist).0
  {
    var d := st.heap[self].name;
    var (st1, result) := Dispatch(b, st, st.heap[self].package, name, level, fromlist);
    Moved(b, st, st1, {});
    hide Absolute, IsDenied;
    assert Resolve(b, st, st.heap[self].package, name, level).Refused?
           || Resolve(b, st, st.heap[self].package, name, level) == Resolved(d);
    hide Resolve, Frame, Inv, Serve, Chain, Expanded, Wanted;
    if result.Ok? {
      assert Served(st1, d, fromlist, result);
      BindsSelfToItself(st1, self, Wanted(st1, self, fromlist));
    }
    hide Dispatch, BindFrom;
  }

  lemma {:induction false} TidyExec(b: Bindings, st: State, open: set<Name>, self: Ref, stmts: seq<Stmt>)
    requires Tidy(b, st, open) && OwnsAll(b, st, self, stmts)
    ensures Tidy(b, Exec(b, st, self, stmts).0, open)
    decreases Unrealised(b, st), 6, stmts
  {
    TidyInv(b, st, open);
    hide Tidy, Own, Frame, Inv, Unrealised, SameCache, HeapGrows, AtHome, Binds;
    if stmts != [] {
      var (st1, completed) := ExecStmt(b, st, self, stmts[0]);
      assert Owns(b, st, self, stmts[0]) by {
        assert forall w :: Binds(HomeOf(st.heap[self]), stmts[0], w) ==> BindsAny(HomeOf(st.heap[self]), stmts, w);
      }
      TidyStmt(b, st, open, self, stmts[0]);
      if completed {
        Moved(b, st, st1, {self});
        assert OwnsAll(b, st, self, stmts[1..]) by {
          assert forall w ::
              BindsAny(HomeOf(st.heap[self]), stmts[1..], w) ==> BindsAny(HomeOf(st.heap[self]), stmts, w);
        }
        OwnsOn(b, st, st1, self, stmts[1..]);
        TidyExec(b, st1, open, self, stmts[1..]);
      }
    }
  }

  lemma {:induction false} TidyStmt(b: Bindings, st: State, open: set<Name>, self: Ref, stmt: Stmt)
    requires Tidy(b, st, open) && Owns(b, st, self, stmt)
    ensures Tidy(b, ExecStmt(b, st, self, stmt).0, open)
    decreases Unrealised(b, st), 6, stmt
  {
    TidyInv(b, st, open);
    hide Tidy, Own, Frame, Inv, Unrealised, SameCache, HeapGrows, BindsAny, Exec, Dispatch, BindImport, SetExports;
    match stmt {
      case Raise =>
      case Bind(name) =>
        assert Binds(HomeOf(st.heap[self]), stmt, name);
        TidyOwn(b, st, open, self, name, Plain);
      case Export(names) =>
        assert Binds(HomeOf(st.heap[self]), stmt, "__all__");
        TidyExport(b, st, open, self, names);
      case Try(body, handler) =>
        var (st1, completed) := Exec(b, st, self, body);
        assert forall w :: BindsAny(HomeOf(st.heap[self]), body, w) || BindsAny(HomeOf(st.heap[self]), handler, w)
                           ==> Binds(HomeOf(st.heap[self]), stmt, w);
        hide Binds, AtHome;
        TidyExec(b, st, open, self, body);
        if !completed {
          Moved(b, st, st1, {self});
          OwnsOn(b, st, st1, self, handler);
          TidyExec(b, st1, open, self, handler);
        }
      case Import(name, level, fromlist) =>
        TidyDispatch(b, st, open, st.heap[self].package, name, level, fromlist);
        TidyImport(b, st, open, self, name, level, fromlist);
    }
  }

  lemma {:induction false} OwnsTargets(
    b: Bindings, st: State, self: Ref, name: string, level: nat, fromlist: seq<string>, w: string)
    requires Owns(b, st, self, Import(name, level, fromlist)) && Targets(name, fromlist, w)
    requires fromlist == [] || !FromItself(HomeOf(st.heap[self]), name, level) || st.heap[self].kind == Main
    ensures Own(b, st, self, w)
  {
    assert st.heap[self].kind == Main || Binds(HomeOf(st.heap[self]), Import(name, level, fromlist), w);
  }

  lemma {:induction false} ImportBinds(
    b: Bindings, st: State, self: Ref, name: string, level: nat, fromlist: seq<string>)
    requires Inv(b, st) && self < |st.heap|
    ensures var (st1, r) := Dispatch(b, st, st.heap[self].package, name, level, fromlist);
            && self < |st1.heap| && (r.Ok? && r.value.Module? ==> r.value.ref < |st1.heap|)
            && ExecStmt(b, st, self, Import(name, level, fromlist)) ==
                 (if r.Err? then (st1, false) else BindImport(st1, self, r.value, name, fromlist))
  {
    Moved(b, st, Dispatch(b, st, st.heap[self].package, name, level, fromlist).0, {});
    hide Frame, Inv, Dispatch, BindImport;
  }

  // Binding what an import answered.
  lemma {:induction false} TidyImport(
    b: Bindings, st: State, open: set<Name>, self: Ref, name: string, level: nat, fromlist: seq<string>)
    requires Inv(b, st) && Owns(b, st, self, Import(name, level, fromlist))
    requires Tidy(b, Dispatch(b, st, st.heap[self].package, name, level, fromlist).0, open)
    ensures Tidy(b, ExecStmt(b, st, self, Import(name, level, fromlist)).0, open)
  {
    var (st1, result) := Dispatch(b, st, st.heap[self].package, name, level, fromlist);
    assert AtHome(st, self);
    hide Tidy, Frame, Inv, Unrealised, SameCache, HeapGrows, Dispatch, BindImport, ExecStmt, Owns, FromItself, Targets;
    if fromlist != [] && FromItself(HomeOf(st.heap[self]), name, level) && st.heap[self].kind != Main {
      SelfImport(b, st, self, name, level, fromlist);
    } else {
      ImportBinds(b, st, self, name, level, fromlist);
      hide Own, AtHome;
      if result.Ok? {
        Moved(b, st, st1, {});
        forall w | Targets(name, fromlist, w)
          ensures Own(b, st1, self, w)
        {
          OwnsTargets(b, st, self, name, level, fromlist, w);
        }
        TidyBindImport(b, st1, open, self, result.value, name, fromlist);
      }
    }
  }

  lemma {:induction false} TidyDispatch(
    b: Bindings, st: State, open: set<Name>, package: string, name: string, level: nat, fromlist: seq<string>)
    requires Tidy(b, st, open)
    ensures Tidy(b, Dispatch(b, st, package, name, level, fromlist).0, open)
    decreases Unrealised(b, st), 4, 2
  {
    TidyInv(b, st, open);
    hide Tidy, Frame, Inv, Unrealised, Resolve, Serve, Served;
    if Resolve(b, st, package, name, level).Resolved? {
      TidyServe(b, st, open, Resolve(b, st, package, name, level).name, fromlist);
    }
  }

  lemma {:induction false} TidyServe(b: Bindings, st: State, open: set<Name>, d: Name, fromlist: seq<string>)
    requires Tidy(b, st, open)
    ensures Tidy(b, Serve(b, st, d, fromlist).0, open)
    decreases Unrealised(b, st), 4, 1
  {
    TidyInv(b, st, open);
    hide Tidy, Frame, Inv, Unrealised, Served, Chain, ImportModule, Answer, SameCache, Own;
    var (st1, result) := ImportModule(b, st, d);
    TidyImportModule(b, st, open, d);
    if result.Ok? {
      Moved(b, st, st1, {});
      TidyAnswer(b, st1, open, d, fromlist);
    }
  }

  lemma {:induction false} TidyAnswer(b: Bindings, st: State, open: set<Name>, d: Name, fromlist: seq<string>)
    requires Tidy(b, st, open) && Chain(st, d, 0) && d in st.realised
    ensures Tidy(b, Answer(b, st, d, fromlist).0, open)
    decreases Unrealised(b, st), 4, 0
  {
    TidyInv(b, st, open);
    CachedRef(b, st, d);
    hide Tidy, Frame, Inv, Unrealised, Served, Expanded, Chain, Expand, Wanted;
    if fromlist == [] {
      TidyNote(b, st, open, Fault(st));
    } else {
      TidyExpand(b, st, open, st.realised[d], d, Wanted(st, st.realised[d], fromlist));
    }
  }

  lemma {:induction false} CachedRef(b: Bindings, st: State, d: Name)
    requires Inv(b, st) && d in st.realised
    ensures st.realised[d] < |st.heap|
  {
  }

  lemma {:induction false} TidyExpand(
    b: Bindings, st: State, open: set<Name>, ref: Ref, dotted: Name, wanted: seq<string>)
    requires Tidy(b, st, open)
    requires dotted in st.realised && st.realised[dotted] == ref && Chain(st, dotted, 0)
    ensures Tidy(b, Expand(b, st, ref, dotted, wanted).0, open)
    decreases Unrealised(b, st), 3, |wanted|
  {
    TidyInv(b, st, open);
    CachedRef(b, st, dotted);
    hide Tidy, Frame, Inv, Unrealised, Expanded, ImportModule, Linked, Chain, Own, Expand;
    if wanted != [] {
      ImportLaws.ExpandUnfolds(b, st, ref, dotted, wanted);
      if HasAttr(st, ref, wanted[0]) {
        TidyExpand(b, st, open, ref, dotted, wanted[1..]);
      } else {
        var (st1, result) := ImportModule(b, st, dotted + "." + wanted[0]);
        TidyImportModule(b, st, open, dotted + "." + wanted[0]);
        if result.Ok? || result.error.ImportError? {
          Moved(b, st, st1, {});
          TidyExpand(b, st1, open, ref, dotted, wanted[1..]);
        }
      }
    } else {
      ExpandNothing(b, st, ref, dotted);
    }
  }

  lemma {:induction false} ExpandNothing(b: Bindings, st: State, ref: Ref, dotted: Name)
    requires Inv(b, st) && dotted in st.realised && st.realised[dotted] == ref && Chain(st, dotted, 0)
    ensures Expand(b, st, ref, dotted, []) == (st, None)
  {
    hide Frame, Expanded;
  }

  lemma {:induction false} TidyImportModule(b: Bindings, st: State, open: set<Name>, d: Name)
    requires Tidy(b, st, open)
    ensures Tidy(b, ImportModule(b, st, d).0, open)
    decreases Unrealised(b, st), 2
  {
    TidyInv(b, st, open);
    hide Tidy, Frame, Inv, Unrealised, ImportFrom, Linked;
    TidyImportFrom(b, st, open, d, 0);
  }

  lemma {:induction false} TidyImportFrom(b: Bindings, st: State, open: set<Name>, d: Name, i: nat)
    requires Tidy(b, st, open) && i < |Prefixes(d)| && PrefixesRealised(st, d, i)
    ensures Tidy(b, ImportFrom(b, st, d, i).0, open)
    decreases Unrealised(b, st), 1, |Prefixes(d)| - i
  {
    TidyInv(b, st, open);
    hide Tidy, Frame, Inv, Unrealised, Linked, Chain, ParentsRealised, ImportPrefix, SameCache;
    var prefix := Prefixes(d)[i];
    PrefixFacts(st, d, i);
    var (st1, result) := ImportPrefix(b, st, prefix);
    TidyPrefix(b, st, open, prefix);
    if result.Ok? && i + 1 < |Prefixes(d)| {
      Moved(b, st, st1, {});
      PrefixesGrow(st, st1, d, i);
      hide PrefixesRealised;
      TidyImportFrom(b, st1, open, d, i + 1);
    }
  }

  lemma {:induction false} TidyPrefix(b: Bindings, st: State, open: set<Name>, d: Name)
    requires Tidy(b, st, open) && ParentsRealised(st, d)
    ensures Tidy(b, ImportPrefix(b, st, d).0, open)
    decreases Unrealised(b, st), 1, 0
  {
    TidyInv(b, st, open);
    hide Tidy, Frame, Inv, Unrealised, Linked, ParentsRealised, Realise, Transaction, SameCache;
    var (st1, result) := Realise(b, st, d);
    TidyRealise(b, st, open, d);
    if result.Ok? && Parent(d).Some? && Parent(d).value.0 in st1.realised {
      RealisedRef(b, st, d);
      TidyLink(b, st1, open, d);
    } else {
      RealisedRef(b, st, d);
      TidyClose(b, st1, open, d);
      TidyNote(b, st1, open, Fault(st1));
    }
  }

  lemma {:induction false} RealisedRef(b: Bindings, st: State, d: Name)
    requires Inv(b, st)
    ensures var (st1, r) := Realise(b, st, d);
            && Inv(b, st1)
            && (r.Ok? ==> d in st1.realised && st1.realised[d] == r.value)
            && (r.Err? ==> d !in st1.realised)
  {
    assert Frame(b, st, Realise(b, st, d).0, {}, {d});
    hide Frame, RealiseHost, RealiseBundle, RealiseNative, RealiseExtension;
  }

  lemma {:induction false} TidyRealise(b: Bindings, st: State, open: set<Name>, d: Name)
    requires Tidy(b, st, open) && ParentsRealised(st, d)
    ensures Tidy(b, Realise(b, st, d).0, open + {d})
    decreases Unrealised(b, st), 0, 1
  {
    TidyInv(b, st, open);
    TidyWeaken(b, st, open, open + {d});
    hide Tidy, Frame, Inv, Unrealised, ParentsRealised, RealiseHost, RealiseBundle, RealiseNative, RealiseExtension;
    if d !in st.realised {
      if d in b.specs {
        TidyHost(b, st, open, d);
      } else if d in b.natives {
        TidyNative(b, st, open, d);
      } else if d in b.sources {
        TidyBundle(b, st, open, d);
      } else if d in b.extensions {
        TidyExtension(b, st, open, d);
      }
    }
  }

  lemma {:induction false} BegunAtHome(st: State, d: Name, source: Source)
    requires ParentsRealised(st, d)
    ensures AtHome(BeginBundle(st, d, source), |st.heap|)
    ensures |st.heap| < |BeginBundle(st, d, source).heap|
    ensures HomeOf(BeginBundle(st, d, source).heap[|st.heap|]) == Home(d, Package(d, source))
    ensures BeginBundle(st, d, source).heap[|st.heap|].kind == BundleSource
  {
    hide Seeds, Package;
    ParentOfPrefix(d, 0);
    if |Prefixes(d)| > 1 {
      assert Prefixes(d)[0] in st.realised;
    }
  }

  // A module's code binds in its own object what its text says.
  lemma {:induction false} BegunOwns(b: Bindings, st: State, d: Name)
    requires ParentsRealised(st, d) && d in b.sources && d in b.sources[d].modules
    ensures OwnsAll(b, BeginBundle(st, d, b.sources[d].modules[d]), |st.heap|, b.sources[d].modules[d].body)
  {
    hide ParentsRealised, BindsAny, Package, BeginBundle, AtHome;
    BegunAtHome(st, d, b.sources[d].modules[d]);
  }

  lemma {:induction false} BundleUnfolds(b: Bindings, st: State, d: Name)
    requires Inv(b, st) && d !in st.realised && d in b.sources && b.Preferred(d) == BundleSource
    requires d in b.sources[d].modules && b.sources[d].id in b.prepared
    ensures var self, source := |st.heap|, b.sources[d].modules[d];
            var begun := BeginBundle(st, d, source);
            && Inv(b, begun) && self < |begun.heap| && Unrealised(b, begun) < Unrealised(b, st)
            && var (done, completed) := if source.compiles then Exec(b, begun, self, source.body) else (begun, false);
               RealiseBundle(b, st, d).0 == if completed then done else Uncache(done, d)
  {
    BegunIsSmaller(b, st, d, b.sources[d].modules[d]);
    hide Transaction, Frame, Linked, Inv, Exec, BeginBundle, Unrealised;
  }

  lemma {:induction false} BegunIsSmaller(b: Bindings, st: State, d: Name, source: Source)
    requires Inv(b, st) && d !in st.realised && d in b.Names() && b.Preferred(d) == BundleSource
    ensures var begun := BeginBundle(st, d, source);
            && Inv(b, begun) && |st.heap| < |begun.heap| && Unrealised(b, begun) < Unrealised(b, st)
  {
    BeginBundleFrame(b, st, d, source);
    hide Frame, Linked, Inv, BeginBundle;
    assert d in Unrealised(b, st) && d !in Unrealised(b, BeginBundle(st, d, source));
  }

  lemma {:induction false} TidyBundle(b: Bindings, st: State, open: set<Name>, d: Name)
    requires Tidy(b, st, open) && d !in st.realised && ParentsRealised(st, d)
    requires d in b.sources && b.Preferred(d) == BundleSource
    ensures Tidy(b, RealiseBundle(b, st, d).0, open + {d})
    decreases Unrealised(b, st), 0, 0
  {
    TidyInv(b, st, open);
    var bundle := b.sources[d];
    hide Tidy, Transaction, Inv, Frame, Unrealised, ParentsRealised, BeginBundle, OwnsAll, Exec;
    if d !in bundle.modules || bundle.id !in b.prepared {
      TidyWeaken(b, st, open, open + {d});
      TidyNote(b, st, open + {d}, Fault(Attempt(st, d)));
    } else {
      var self, source := |st.heap|, bundle.modules[d];
      var begun := BeginBundle(st, d, source);
      BundleUnfolds(b, st, d);
      hide RealiseBundle;
      TidyBundleModule(b, st, open, d, source);
      BegunOwns(b, st, d);
      TidyExec(b, begun, open + {d}, self, source.body);
      var (done, completed) := if source.compiles then Exec(b, begun, self, source.body) else (begun, false);
      if !completed {
        TidyWeaken(b, done, open + {d}, open + {d} + {d});
        TidyUncache(b, done, open + {d}, d);
      }
    }
  }

  // ----- whole runs ------------------------------------------------------------------------------------------

  lemma {:induction false} TidyRun(b: Bindings, st: State, calls: seq<Call>)
    requires Tidy(b, st, {}) && MAIN < |st.heap| && st.heap[MAIN].kind == Main
    ensures Tidy(b, Run(b, st, calls), {})
    decreases |calls|
  {
    TidyInv(b, st, {});
    hide Tidy, Frame, Inv, Exec, ImportFrom, Resolve;
    if calls != [] {
      var st1 := Step(b, st, calls[0]);
      match calls[0] {
        case RunMain(stmts) =>
          TidyExec(b, st, {}, MAIN, stmts);
          ImportLaws.MainStays(b, st, st1, {MAIN});
        case HostImport(d) =>
          if Resolve(b, st, "", d, 0).Resolved? {
            TidyImportFrom(b, st, {}, d, 0);
            ImportLaws.MainStays(b, st, st1, {});
          }
      }
      TidyRun(b, st1, calls[1..]);
    }
  }

  // In every run, for a cached submodule whose package is cached and whose package's own code never
  // binds its name: it is an attribute of the package exactly if the importer has bound it there since
  // the package's present object was made.  It has if the package was realised only once, and whenever
  // the submodule is the younger of the two.
  lemma {:induction false} AttachedIff(b: Bindings, calls: seq<Call>, d: Name)
    requires var st := Run(b, Init(), calls);
             && d in st.realised && Parent(d).Some? && Parent(d).value.0 in st.realised
             && SilentModule(b, Parent(d).value.0, Parent(d).value.1)
    ensures var st, p := Run(b, Init(), calls), Parent(d).value.0;
            && (Attached(st, d) <==> (st.realised[p], d) in st.bound)
            && (Linked(st, d) <==> Attached(st, d))
            && (st.realised[p] < st.realised[d] ==> Attached(st, d))
            && (st.attempts[p] == 1 ==> st.realised[p] < st.realised[d])
  {
    TidyRun(b, Init(), calls);
    hide Run, Silent;
    var st := Run(b, Init(), calls);
    assert ChildTidy(b, st, {}, d);
    var (p, w) := Parent(d).value;
    var r := st.realised[p];
    assert st.heap[r].name == p && st.heap[r].kind == b.Preferred(p);
    assert p + "." + w == d;
    if Attached(st, d) {
      assert w in st.heap[r].attrs && st.heap[r].attrs[w].Module?;
    }
  }
}
