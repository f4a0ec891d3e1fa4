/** Runs of the importer in which it does less than one might expect. */
module ImportRuns {
  import opened Wrappers
  import opened Names
  import opened Importer
  import opened ImportLaws

  // A package that loses its submodule.  Importing `m` makes the package `p` fail after it has imported
  // `p.w`; by the time `p` is imported again `m` has what the package wants, so this time it does not
  // import `p.w`, which is still cached.
  const OUTER := Source([Try([Import("p", 0, [])], []), Bind("attr")], true, false)

  const PACKAGE :=
    Source([Try([Import("m", 0, ["attr"])], [Import("p.w", 0, []), Raise])], true, true)

  const CHILD := Source([], true, false)

  function World(): Bindings {
    var bundle := Bundle(0, map["m" := OUTER, "p" := PACKAGE, "p.w" := CHILD]);
    Bindings(map[], map[], map["m" := bundle, "p" := bundle, "p.w" := bundle], {0}, map[], {}, {})
  }

  // ----- one step at a time ----------------------------------------------------------------------

  lemma {:induction false} ChildHead(p: Name, w: string)
    requires '.' !in p && '.' !in w
    ensures Prefixes(p + "." + w) == [p, p + "." + w] && Head(p + "." + w) == p
    ensures Parent(p + "." + w) == Some((p, w))
  {
    PlainName(p);
    ChildName(p, w);
    ParentOfPrefix(p + "." + w, 0);
  }

  // A name without dots is imported by realising it.
  lemma {:induction false} ImportPlain(b: Bindings, st: State, d: Name)
    requires Inv(b, st) && '.' !in d
    ensures ImportModule(b, st, d) == Realise(b, st, d)
  {
    PlainName(d);
    hide Frame, Realise, Inv, Linked, Transaction, Chain;
    assert ImportPrefix(b, st, d) == Realise(b, st, d);
    assert ImportFrom(b, st, d, 0) == ImportPrefix(b, st, d) by { hide ImportPrefix; }
  }

  // A submodule of a cached package is realised and bound.
  lemma {:induction false} ImportChild(b: Bindings, st: State, p: Name, w: string)
    requires Inv(b, st) && '.' !in p && '.' !in w && p in st.realised
    ensures var d := p + "." + w;
            var (st1, r) := Realise(b, st, d);
            && Inv(b, st1) && p in st1.realised && st1.realised[p] < |st1.heap|
            && Parent(d) == Some((p, w))
            && ImportModule(b, st, d) == (if r.Err? then (st1, r) else (BindChild(st1, d, r.value), r))
  {
    var d := p + "." + w;
    ChildHead(p, w);
    PlainName(p);
    RealiseKeeps(b, st, d);
    assert Realise(b, st, p) == (st, Ok(st.realised[p]));
    hide Frame, Realise, Linked, Transaction, Chain, BindChild, Inv;
    assert ImportPrefix(b, st, p) == (st, Ok(st.realised[p]));
    var (st1, r) := Realise(b, st, d);
    assert ImportPrefix(b, st, d) == (if r.Err? then (st1, r) else (BindChild(st1, d, r.value), r));
    hide ImportPrefix;
    assert ImportFrom(b, st, d, 1) == ImportPrefix(b, st, d);
    assert ImportFrom(b, st, d, 0) == ImportFrom(b, st, d, 1);
  }

  lemma {:induction false} RealiseKeeps(b: Bindings, st: State, d: Name)
    requires Inv(b, st)
    ensures Inv(b, Realise(b, st, d).0) && SameCache(st, Realise(b, st, d).0)
    ensures forall e :: e in st.realised ==> Realise(b, st, d).0.realised[e] < |Realise(b, st, d).0.heap|
  {
    assert Frame(b, st, Realise(b, st, d).0, {}, {d});
    hide Realise;
  }

  // `import d` without a from-list answers with the head module.
  lemma {:induction false} DispatchPlain(b: Bindings, st: State, package: string, d: Name)
    requires Inv(b, st) && Head(d) in b.Names() && !IsDenied(d, b.denied)
    ensures var (st1, r) := ImportModule(b, st, d);
            && (r.Ok? ==> Head(d) in st1.realised)
            && Dispatch(b, st, package, d, 0, []) ==
                 (st1, if r.Err? then Err(r.error) else Ok(Module(st1.realised[Head(d)])))
  {
    hide ImportFrom, Linked;
    var (st1, r) := ImportModule(b, st, d);
    assert Frame(b, st, st1, {}, {}) && Inv(b, st1);
    hide Frame;
    ParentOfPrefix(d, 0);
    assert r.Ok? ==> Prefixes(d)[0] in st1.realised;
    hide Chain, ImportModule, Served, Inv;
    if r.Ok? {
      assert Answer(b, st1, d, []) == HeadModule(st1, d);
    }
    hide Answer;
    assert Resolve(b, st, package, d, 0) == Resolved(d);
    assert Serve(b, st, d, []) == (st1, if r.Err? then Err(r.error) else Ok(Module(st1.realised[Head(d)])));
  }

  // `from m import a` on a cached module that has `a`, or has neither it nor a submodule of that name.
  lemma {:induction false} DispatchFrom(b: Bindings, st: State, package: string, m: Name, a: string)
    requires Inv(b, st) && m in b.Names() && !IsDenied(m, b.denied) && m in st.realised
    requires '.' !in m && '.' !in a && a != "*"
    requires HasAttr(st, st.realised[m], a) || (m + "." + a !in b.Names() && m + "." + a !in st.realised)
    ensures Dispatch(b, st, package, m, 0, [a]) == (st, Ok(Module(st.realised[m])))
  {
    PlainName(m);
    ImportPlain(b, st, m);
    assert ImportModule(b, st, m) == (st, Ok(st.realised[m]));
    assert Chain(st, m, 0);
    ExpandFrom(b, st, m, a);
    hide Frame, Linked, Inv, ImportModule, Chain, Served, Expanded, Expand;
    assert Wanted(st, st.realised[m], [a]) == [a];
    assert Answer(b, st, m, [a]) == (st, Ok(Module(st.realised[m])));
    hide Answer;
    assert Serve(b, st, m, [a]) == (st, Ok(Module(st.realised[m])));
    hide Serve;
    assert Resolve(b, st, package, m, 0) == Resolved(m);
  }

  lemma {:induction false} ExpandFrom(b: Bindings, st: State, m: Name, a: string)
    requires Inv(b, st) && m in st.realised && '.' !in m && '.' !in a && Chain(st, m, 0)
    requires HasAttr(st, st.realised[m], a) || (m + "." + a !in b.Names() && m + "." + a !in st.realised)
    ensures Expand(b, st, st.realised[m], m, [a]) == (st, None)
  {
    hide Frame, Linked, Chain, Expanded, ImportModule;
    assert Expand(b, st, st.realised[m], m, []) == (st, None);
    assert [a][1..] == [];
    if !HasAttr(st, st.realised[m], a) {
      ImportChild(b, st, m, a);
      assert Realise(b, st, m + "." + a) == (st, Err(ImportError(m + "." + a, NotFound)));
    }
  }

  // A bundle module that is not cached runs its body.
  lemma {:induction false} RealiseIs(b: Bindings, st: State, d: Name)
    requires Inv(b, st) && d !in st.realised && d in b.sources && d !in b.specs && d !in b.natives
    requires d in b.sources[d].modules && b.sources[d].id in b.prepared && b.sources[d].modules[d].compiles
    ensures var self, source := |st.heap|, b.sources[d].modules[d];
            var begun := BeginBundle(st, d, source);
            && Inv(b, begun) && self < |begun.heap|
            && var (done, completed) := Exec(b, begun, self, source.body);
               Realise(b, st, d) == (if completed then (done, Ok(self)) else (Uncache(done, d), Err(GuestError)))
  {
    BeginBundleFrame(b, st, d, b.sources[d].modules[d]);
    hide Frame, Transaction, Exec, BeginBundle, Inv;
  }

  lemma {:induction false} ExecTwo(b: Bindings, st: State, self: Ref, first: Stmt, second: Stmt)
    requires Inv(b, st) && self < |st.heap|
    ensures var (st1, completed) := ExecStmt(b, st, self, first);
            && Inv(b, st1) && self < |st1.heap|
            && Exec(b, st, self, [first, second]) ==
                 (if completed then ExecStmt(b, st1, self, second) else (st1, false))
  {
    var (st1, completed) := ExecStmt(b, st, self, first);
    assert Frame(b, st, st1, {self}, {});
    hide Frame, Inv, ExecStmt;
    if completed {
      ExecOne(b, st1, self, second);
      assert [first, second][1..] == [second];
    }
  }

  lemma {:induction false} ExecOne(b: Bindings, st: State, self: Ref, stmt: Stmt)
    requires Inv(b, st) && self < |st.heap|
    ensures Exec(b, st, self, [stmt]) == ExecStmt(b, st, self, stmt)
  {
    var (st1, completed) := ExecStmt(b, st, self, stmt);
    assert Frame(b, st, st1, {self}, {});
    hide Frame, Inv, ExecStmt;
    assert [stmt][1..] == [];
  }

  lemma {:induction false} PlainSteps(b: Bindings, st: State, self: Ref, name: string)
    requires Inv(b, st) && self < |st.heap|
    ensures Exec(b, st, self, []) == (st, true)
    ensures ExecStmt(b, st, self, Raise) == (st, false)
    ensures ExecStmt(b, st, self, Bind(name)) == (SetAttr(st, self, name, Plain), true)
  {
    hide Frame;
  }

  lemma {:induction false} TryRuns(b: Bindings, st: State, self: Ref, body: seq<Stmt>, handler: seq<Stmt>)
    requires Inv(b, st) && self < |st.heap|
    ensures var (st1, completed) := Exec(b, st, self, body);
            && Inv(b, st1) && self < |st1.heap|
            && ExecStmt(b, st, self, Try(body, handler)) ==
                 (if completed then (st1, true) else Exec(b, st1, self, handler))
  {
    assert Frame(b, st, Exec(b, st, self, body).0, {self}, {});
    hide Frame, Inv, Exec;
  }

  // ----- the run ------------------------------------------------------------------------------------

  predicate Provides(b: Bindings, d: Name, source: Source) {
    && d in b.Names() && b.Preferred(d) == BundleSource && d !in b.specs && d !in b.natives
    && d in b.sources && d in b.sources[d].modules && b.sources[d].modules[d] == source
    && b.sources[d].id in b.prepared
  }

  lemma {:induction false} WorldIs()
    ensures Provides(World(), "m", OUTER) && Provides(World(), "p", PACKAGE) && Provides(World(), "p.w", CHILD)
    ensures World().denied == {} && "m.attr" !in World().Names()
  {
  }

  lemma {:induction false} NotSeeded()
    ensures "attr" !in Seeds(BundleSource) && "attr" != "__path__"
    ensures "w" !in Seeds(BundleSource) && "w" != "__path__"
  {
  }

  lemma {:induction false} BundleBegun(st: State, d: Name, source: Source)
    ensures var self, begun := |st.heap|, BeginBundle(st, d, source);
            && |begun.heap| == self + 1 && begun.realised == st.realised[d := self]
            && begun.heap[..self] == st.heap && begun.bound == st.bound
            && "attr" !in begun.heap[self].attrs && "w" !in begun.heap[self].attrs
  {
    NotSeeded();
    hide Seeds;
  }

  lemma {:induction false} RealiseProvided(b: Bindings, st: State, d: Name, source: Source)
    requires Inv(b, st) && d !in st.realised && Provides(b, d, source) && source.compiles
    ensures var self := |st.heap|;
            var begun := BeginBundle(st, d, source);
            && Inv(b, begun) && self < |begun.heap|
            && var (done, completed) := Exec(b, begun, self, source.body);
               Realise(b, st, d) == (if completed then (done, Ok(self)) else (Uncache(done, d), Err(GuestError)))
  {
    RealiseIs(b, st, d);
    hide Exec, Realise, Inv, BeginBundle;
  }

  // ----- the package fails ---------------------------------------------------------------------------

  ghost predicate Lacks(b: Bindings, st: State) {
    && Inv(b, st) && "m" in b.Names() && b.denied == {} && "m" in st.realised && st.realised["m"] < |st.heap|
    && !HasAttr(st, st.realised["m"], "attr")
    && "m.attr" !in b.Names() && "m.attr" !in st.realised
  }

  lemma {:induction false} ChildImported(b: Bindings, st: State)
    requires Inv(b, st) && Provides(b, "p.w", CHILD) && "p" in st.realised && "p.w" !in st.realised
    ensures Parent("p.w") == Some(("p", "w")) && Head("p.w") == "p"
    ensures var begun := BeginBundle(st, "p.w", CHILD);
            && "p" in begun.realised && begun.realised["p"] < |begun.heap|
            && ImportModule(b, st, "p.w") == (BindChild(begun, "p.w", |st.heap|), Ok(|st.heap|))
  {
    assert "p" + "." + "w" == "p.w";
    ImportChild(b, st, "p", "w");
    ChildHead("p", "w");
    RealiseProvided(b, st, "p.w", CHILD);
    hide Frame, ImportModule, Realise, Provides, Inv, BeginBundle;
    assert Exec(b, BeginBundle(st, "p.w", CHILD), |st.heap|, []) == (BeginBundle(st, "p.w", CHILD), true);
  }

  lemma {:induction false} FromFails(b: Bindings, st: State, self: Ref)
    requires Lacks(b, st) && self < |st.heap|
    ensures ExecStmt(b, st, self, Import("m", 0, ["attr"])) == (st, false)
  {
    assert "m" + "." + "attr" == "m.attr";
    DispatchFrom(b, st, st.heap[self].package, "m", "attr");
    hide Frame, Dispatch, Inv;
    assert Wanted(st, st.realised["m"], ["attr"]) == ["attr"];
  }

  // The state in which the package's handler has imported the submodule.
  function ChildThere(st: State, self: Ref): State
    requires "p" in st.realised && st.realised["p"] == self && self < |st.heap|
  {
    var begun := BeginBundle(st, "p.w", CHILD);
    var linked := SetAttr(begun, self, "w", Module(|st.heap|)).(bound := begun.bound + {(self, "p.w")});
    SetAttr(linked, self, "p", Module(self))
  }

  lemma {:induction false} ImportsChild(b: Bindings, st: State, self: Ref)
    requires Inv(b, st) && Provides(b, "p.w", CHILD) && "p" in b.Names() && b.denied == {}
    requires "p" in st.realised && st.realised["p"] == self && self < |st.heap| && "p.w" !in st.realised
    ensures ExecStmt(b, st, self, Import("p.w", 0, [])) == (ChildThere(st, self), true)
  {
    ChildImported(b, st);
    BundleBegun(st, "p.w", CHILD);
    DispatchPlain(b, st, st.heap[self].package, "p.w");
    hide Frame, Dispatch, ImportModule, Inv, Provides, BeginBundle, Linked, Parent;
    assert BindChild(BeginBundle(st, "p.w", CHILD), "p.w", |st.heap|).realised["p"] == self;
  }

  // The handler of the package imports the submodule and raises.
  lemma {:induction false} HandlerRuns(b: Bindings, st: State, self: Ref)
    requires Inv(b, st) && Provides(b, "p.w", CHILD) && "p" in b.Names() && b.denied == {}
    requires "p" in st.realised && st.realised["p"] == self && self < |st.heap| && "p.w" !in st.realised
    ensures Exec(b, st, self, [Import("p.w", 0, []), Raise]) == (ChildThere(st, self), false)
  {
    hide Frame, ChildThere, Exec, ExecStmt;
    ImportsChild(b, st, self);
    ExecTwo(b, st, self, Import("p.w", 0, []), Raise);
    PlainSteps(b, ChildThere(st, self), self, "");
  }

  lemma {:induction false} ChildThereIs(st: State, self: Ref)
    requires "p" in st.realised && st.realised["p"] == self && self < |st.heap|
    ensures var after := ChildThere(st, self);
            && after.realised == st.realised["p.w" := |st.heap|] && |after.heap| == |st.heap| + 1
            && forall r :: 0 <= r < |st.heap| && r != self ==> after.heap[r] == st.heap[r]
  {
    BundleBegun(st, "p.w", CHILD);
    var begun := BeginBundle(st, "p.w", CHILD);
    assert forall r :: 0 <= r < |st.heap| ==> begun.heap[r] == begun.heap[..|st.heap|][r];
    hide BeginBundle;
  }

  // In a state where `m` lacks what the package wants.
  lemma {:induction false} PackageRuns(b: Bindings, st: State, self: Ref)
    requires Lacks(b, st) && Provides(b, "p.w", CHILD) && "p" in b.Names() && "p.w" !in st.realised
    requires "p" in st.realised && st.realised["p"] == self && self < |st.heap|
    ensures Exec(b, st, self, PACKAGE.body) == (ChildThere(st, self), false)
  {
    hide Frame, ChildThere, Exec, ExecStmt;
    FromFails(b, st, self);
    HandlerRuns(b, st, self);
    hide Provides, Inv;
    ExecOne(b, st, self, Import("m", 0, ["attr"]));
    TryRuns(b, st, self, [Import("m", 0, ["attr"])], [Import("p.w", 0, []), Raise]);
    ExecOne(b, st, self, PACKAGE.body[0]);
  }

  lemma {:induction false} PackageFails(b: Bindings, st: State)
    requires Lacks(b, st) && Provides(b, "p", PACKAGE) && Provides(b, "p.w", CHILD)
    requires "p" !in st.realised && "p.w" !in st.realised
    ensures var (after, r) := Realise(b, st, "p");
            && r == Err(GuestError) && after.realised == st.realised["p.w" := |st.heap| + 1]
            && |after.heap| == |st.heap| + 2 && after.heap[..|st.heap|] == st.heap
  {
    hide Frame, Exec, ExecStmt, Realise, BeginBundle, ChildThere, Inv, Transaction;
    var self, begun := |st.heap|, BeginBundle(st, "p", PACKAGE);
    RealiseProvided(b, st, "p", PACKAGE);
    BundleBegun(st, "p", PACKAGE);
    BegunLacks(b, st);
    PackageRuns(b, begun, self);
    hide Lacks, Provides;
    ChildThereIs(begun, self);
    PackageGone(st, begun, ChildThere(begun, self));
  }

  lemma {:induction false} PackageGone(st: State, begun: State, ran: State)
    requires "p" !in st.realised && begun.realised == st.realised["p" := |st.heap|]
    requires |begun.heap| == |st.heap| + 1 && begun.heap[..|st.heap|] == st.heap
    requires ran.realised == begun.realised["p.w" := |begun.heap|] && |ran.heap| == |begun.heap| + 1
    requires forall r :: 0 <= r < |begun.heap| && r != |st.heap| ==> ran.heap[r] == begun.heap[r]
    ensures Uncache(ran, "p").realised == st.realised["p.w" := |st.heap| + 1]
    ensures ran.heap[..|st.heap|] == st.heap
  {
    assert forall r :: 0 <= r < |st.heap| ==> begun.heap[r] == begun.heap[..|st.heap|][r];
  }

  lemma {:induction false} BegunLacks(b: Bindings, st: State)
    requires Lacks(b, st) && Provides(b, "p", PACKAGE) && "p" !in st.realised
    requires Inv(b, BeginBundle(st, "p", PACKAGE))
    ensures Lacks(b, BeginBundle(st, "p", PACKAGE))
  {
    BundleBegun(st, "p", PACKAGE);
    hide BeginBundle;
    assert BeginBundle(st, "p", PACKAGE).heap[..|st.heap|][st.realised["m"]] == st.heap[st.realised["m"]];
  }

  // ----- `m` is realised, and then the package ----------------------------------------------------------

  lemma {:induction false} ImportOfPackage(b: Bindings, st: State, self: Ref)
    requires Lacks(b, st) && Provides(b, "p", PACKAGE) && Provides(b, "p.w", CHILD) && self < |st.heap|
    requires "p" !in st.realised && "p.w" !in st.realised
    ensures ExecStmt(b, st, self, Import("p", 0, [])) == (Realise(b, st, "p").0, false)
  {
    hide Frame, Exec, Realise, BeginBundle, Transaction;
    PackageFails(b, st);
    ImportPlain(b, st, "p");
    PlainName("p");
    DispatchPlain(b, st, st.heap[self].package, "p");
    hide Inv, Lacks, Provides, ImportModule, Dispatch;
  }

  lemma {:induction false} OuterRuns(b: Bindings, st: State, self: Ref)
    requires Lacks(b, st) && Provides(b, "p", PACKAGE) && Provides(b, "p.w", CHILD)
    requires "p" !in st.realised && "p.w" !in st.realised && self == st.realised["m"]
    ensures var (after, completed) := Exec(b, st, self, OUTER.body);
            && completed && after.realised == st.realised["p.w" := |st.heap| + 1]
            && self < |after.heap| && HasAttr(after, self, "attr")
  {
    hide Frame, Exec, ExecStmt, Realise, Transaction;
    PackageFails(b, st);
    ImportOfPackage(b, st, self);
    ExecOne(b, st, self, Import("p", 0, []));
    TryRuns(b, st, self, [Import("p", 0, [])], []);
    var st1 := Realise(b, st, "p").0;
    PlainSteps(b, st1, self, "attr");
    hide Inv, Lacks, Provides;
    ExecTwo(b, st, self, OUTER.body[0], Bind("attr"));
  }

  // Importing `m` succeeds and leaves the submodule of a package that is gone.
  lemma {:induction false} OuterSucceeds(b: Bindings, st: State)
    requires Inv(b, st) && Provides(b, "m", OUTER) && Provides(b, "p", PACKAGE) && Provides(b, "p.w", CHILD)
    requires b.denied == {} && "m.attr" !in b.Names() && st.realised == map[]
    ensures var (after, r) := Realise(b, st, "m");
            && r.Ok? && after.realised == map["m" := |st.heap|, "p.w" := |st.heap| + 2]
            && |st.heap| < |after.heap| && HasAttr(after, |st.heap|, "attr")
  {
    hide Frame, Exec, ExecStmt, Realise, BeginBundle, Transaction;
    var self, begun := |st.heap|, BeginBundle(st, "m", OUTER);
    RealiseProvided(b, st, "m", OUTER);
    BundleBegun(st, "m", OUTER);
    assert Lacks(b, begun);
    OuterRuns(b, begun, self);
    hide Inv, Lacks, Provides;
  }

  lemma {:induction false} FromSucceeds(b: Bindings, st: State, self: Ref)
    requires Inv(b, st) && "m" in b.Names() && b.denied == {} && "m" in st.realised && self < |st.heap|
    requires st.realised["m"] < |st.heap| && HasAttr(st, st.realised["m"], "attr")
    ensures ExecStmt(b, st, self, Import("m", 0, ["attr"])) ==
              (SetAttr(st, self, "attr", st.heap[st.realised["m"]].attrs["attr"]), true)
  {
    DispatchFrom(b, st, st.heap[self].package, "m", "attr");
    BindsAttr(st, self, st.realised["m"]);
    hide Frame, Dispatch, Inv, BindImport, Bindings.Names;
  }

  lemma {:induction false} BindsAttr(st: State, self: Ref, ref: Ref)
    requires self < |st.heap| && ref < |st.heap| && HasAttr(st, ref, "attr")
    ensures BindImport(st, self, Module(ref), "m", ["attr"]) ==
              (SetAttr(st, self, "attr", st.heap[ref].attrs["attr"]), true)
  {
    assert Wanted(st, ref, ["attr"]) == ["attr"];
    assert ["attr"][1..] == [];
  }

  // Importing the package then succeeds without its submodule.
  lemma {:induction false} PackageSucceeds(b: Bindings, st: State)
    requires Inv(b, st) && Provides(b, "p", PACKAGE) && "m" in b.Names() && b.denied == {}
    requires "m" in st.realised && st.realised["m"] < |st.heap| && HasAttr(st, st.realised["m"], "attr")
    requires "p" !in st.realised
    ensures var (after, r) := Realise(b, st, "p");
            && r == Ok(|st.heap|) && after.realised == st.realised["p" := |st.heap|]
            && |st.heap| < |after.heap| && "w" !in after.heap[|st.heap|].attrs
  {
    hide Frame, Exec, ExecStmt, Realise, BeginBundle, Transaction;
    var self, begun := |st.heap|, BeginBundle(st, "p", PACKAGE);
    RealiseProvided(b, st, "p", PACKAGE);
    BundleBegun(st, "p", PACKAGE);
    assert begun.heap[..self][st.realised["m"]] == st.heap[st.realised["m"]];
    FromSucceeds(b, begun, self);
    ExecOne(b, begun, self, Import("m", 0, ["attr"]));
    TryRuns(b, begun, self, [Import("m", 0, ["attr"])], [Import("p.w", 0, []), Raise]);
    ExecOne(b, begun, self, PACKAGE.body[0]);
    hide Inv, Provides;
  }

  // A host import of a name without dots.
  lemma {:induction false} HostImports(b: Bindings, st: State, d: Name)
    requires Inv(b, st) && MAIN < |st.heap| && '.' !in d && d in b.Names() && b.denied == {}
    ensures Step(b, st, HostImport(d)) == Realise(b, st, d).0
  {
    ImportPlain(b, st, d);
    PlainName(d);
    hide Frame, ImportModule, Realise, Exec;
    assert Resolve(b, st, "", d, 0) == Resolved(d);
  }

  lemma {:induction false} StepKeepsInv(b: Bindings, st: State, call: Call)
    requires Inv(b, st) && MAIN < |st.heap|
    ensures Inv(b, Step(b, st, call)) && MAIN < |Step(b, st, call).heap|
    ensures Run(b, Step(b, st, call), []) == Step(b, st, call)
  {
    match call {
      case RunMain(stmts) => assert Frame(b, st, Exec(b, st, MAIN, stmts).0, {MAIN}, {});
      case HostImport(d) => assert Frame(b, st, ImportModule(b, st, d).0, {}, {});
    }
    hide Exec, ImportModule, KeepsLinks, LinksNew, SameCache, SameAttempts;
  }

  lemma {:induction false} RunTwo(b: Bindings, st: State, first: Call, second: Call)
    requires Inv(b, st) && MAIN < |st.heap|
    ensures var st1 := Run(b, st, [first]);
            && Inv(b, st1) && MAIN < |st1.heap| && st1 == Step(b, st, first)
            && Run(b, st, [first, second]) == Step(b, st1, second)
  {
    hide Frame, Step, Inv;
    StepKeepsInv(b, st, first);
    StepKeepsInv(b, Step(b, st, first), second);
    assert [first][1..] == [] && [first, second][1..] == [second] && [second][1..] == [];
    assert Run(b, Step(b, st, first), [second]) == Step(b, Step(b, st, first), second);
  }

  // With these three modules the package ends up cached without its cached submodule.
  lemma {:induction false} PackageForgetsSubmodule()
    ensures var st := Run(World(), Init(), [HostImport("m"), HostImport("p")]);
            && "p" in st.realised && "p.w" in st.realised && st.realised["p.w"] < st.realised["p"]
            && Parent("p.w") == Some(("p", "w")) && !Attached(st, "p.w")
  {
    hide Frame, Exec, Realise, Step, Run;
    var b := World();
    WorldIs();
    hide World;
    HostImports(b, Init(), "m");
    OuterSucceeds(b, Init());
    RunTwo(b, Init(), HostImport("m"), HostImport("p"));
    var st1 := Run(b, Init(), [HostImport("m")]);
    HostImports(b, st1, "p");
    PackageSucceeds(b, st1);
    assert st1.realised["p.w"] < |st1.heap|;
    assert "p" + "." + "w" == "p.w";
    ChildHead("p", "w");
    hide Inv, Provides;
  }

  // ----- a denied submodule --------------------------------------------------------------------------------

  function DenyingWorld(): Bindings {
    var bundle := Bundle(0, map["p" := Source([], true, true), "p.w" := CHILD]);
    Bindings(map[], map[], map["p" := bundle, "p.w" := bundle], {0}, map[], {"p.w"}, {})
  }

  lemma {:induction false} DenyingWorldIs()
    ensures Provides(DenyingWorld(), "p", Source([], true, true)) && Provides(DenyingWorld(), "p.w", CHILD)
    ensures DenyingWorld().denied == {"p.w"}
  {
  }

  // A from-list realises a submodule that is denied when it is imported by its name.
  lemma {:induction false} DeniedSubmoduleIsRealised()
    ensures var b := DenyingWorld();
            && "p.w" in Dispatch(b, Init(), "", "p", 0, ["w"]).0.realised
            && Dispatch(b, Init(), "", "p.w", 0, []) == (Init(), Err(ImportError("p.w", Denied)))
  {
    var b := DenyingWorld();
    DenyingWorldIs();
    hide DenyingWorld;
    PlainName("p");
    assert Resolve(b, Init(), "", "p", 0) == Resolved("p");
    hide Resolve, Frame, Serve, Served, Provides, Inv;
    DeniedByName(b);
    ServesChild(b);
  }

  lemma {:induction false} DeniedByName(b: Bindings)
    requires b.denied == {"p.w"}
    ensures Dispatch(b, Init(), "", "p.w", 0, []) == (Init(), Err(ImportError("p.w", Denied)))
  {
    assert "p" + "." + "w" == "p.w";
    ChildHead("p", "w");
    assert Prefixes("p.w")[1] in b.denied;
    hide Frame, Serve;
  }

  lemma {:induction false} ServesChild(b: Bindings)
    requires Provides(b, "p", Source([], true, true)) && Provides(b, "p.w", CHILD)
    ensures "p.w" in Serve(b, Init(), "p", ["w"]).0.realised
  {
    hide Frame, Exec, Realise, BeginBundle, Transaction, Served;
    var st := Init();
    var begun := BeginBundle(st, "p", Source([], true, true));
    RealiseProvided(b, st, "p", Source([], true, true));
    BundleBegun(st, "p", Source([], true, true));
    PlainSteps(b, begun, 1, "");
    ImportPlain(b, st, "p");
    assert ImportModule(b, st, "p") == (begun, Ok(1));
    hide ImportModule, Inv, Linked;
    AnswersChild(b, begun);
    hide Answer;
    assert Serve(b, st, "p", ["w"]) == Answer(b, begun, "p", ["w"]);
  }

  lemma {:induction false} AnswersChild(b: Bindings, st: State)
    requires Inv(b, st) && Provides(b, "p.w", CHILD) && "p" in st.realised && "p.w" !in st.realised
    requires Chain(st, "p", 0) && st.realised["p"] < |st.heap| && !HasAttr(st, st.realised["p"], "w")
    ensures "p.w" in Answer(b, st, "p", ["w"]).0.realised
  {
    ExpandsChild(b, st);
    hide Frame, Served, Expanded, Chain, Inv, Provides, Expand;
    assert Wanted(st, st.realised["p"], ["w"]) == ["w"];
  }

  lemma {:induction false} ExpandsChild(b: Bindings, st: State)
    requires Inv(b, st) && Provides(b, "p.w", CHILD) && "p" in st.realised && "p.w" !in st.realised
    requires Chain(st, "p", 0) && st.realised["p"] < |st.heap| && !HasAttr(st, st.realised["p"], "w")
    ensures "p.w" in Expand(b, st, st.realised["p"], "p", ["w"]).0.realised
  {
    ChildImported(b, st);
    ExpandsOne(b, st, st.realised["p"], "p", "w");
    hide ImportModule, Expand, Inv, Chain, Frame, BeginBundle, Provides;
    assert "p" + "." + "w" == "p.w";
    BundleBegun(st, "p.w", CHILD);
  }
}
