/**
 What denying names achieves over whole runs.  Only the name of an import statement or a host import is
 checked, not the submodules a from-list leads to, so a denial is final exactly for the names under a
 denied head.
 */
module DeniedNames {
  import opened Wrappers
  import opened Names
  import opened Importer
  import ImportLaws
  import ImportRuns
  import MountedRuns
  import Overlay
  import Submodules

  // Nothing under a denied head is realised.
  predicate HeadsOpen(denied: set<Name>, st: State) {
    forall d :: d in st.realised ==> Head(d) !in denied
  }

  // ----- heads -----------------------------------------------------------------------------------

  lemma {:induction false} HeadOfPrefix(d: Name, i: nat)
    requires i < |Prefixes(d)|
    ensures Head(Prefixes(d)[i]) == Head(d)
  {
    PrefixesOfPrefix(d, i);
    ParentOfPrefix(d, 0);
    ParentOfPrefix(Prefixes(d)[i], 0);
  }

  lemma {:induction false} HeadOfChild(d: Name, w: string)
    ensures Head(d + "." + w) == Head(d)
  {
    SplitOnceAppend(d, w);
  }

  lemma {:induction false} SplitOnceAppend(d: Name, w: string)
    ensures SplitOnce(d + "." + w) ==
              match SplitOnce(d) case None => Some((d, w)) case Some(pair) => Some((pair.0, pair.1 + "." + w))
    decreases |d|
  {
    var child := d + "." + w;
    if d == "" {
      assert child[1..] == w;
    } else {
      assert child[1..] == d[1..] + "." + w;
      SplitOnceAppend(d[1..], w);
      assert [d[0]] + d[1..] == d;
    }
  }

  // What an import may serve is not under a denied head.
  lemma {:induction false} ResolvedIsOpen(b: Bindings, st: State, package: string, name: string, level: nat)
    requires Resolve(b, st, package, name, level).Resolved?
    ensures Head(Resolve(b, st, package, name, level).name) !in b.denied
  {
    var d := Resolve(b, st, package, name, level).name;
    ParentOfPrefix(d, 0);
    hide Absolute, Contains;
    assert Prefixes(d)[0] == Head(d);
  }

  // ----- every import and every program keeps it -------------------------------------------------

  lemma {:induction false} DeclareRealisesNothing(st: State, self: Ref, members: seq<Member>)
    requires self < |st.heap|
    ensures Declare(st, self, members).0.realised == st.realised
    ensures self < |Declare(st, self, members).0.heap|
    decreases |members|
  {
    if members != [] {
      var next := if members[0].Value? then SetAttr(st, self, members[0].name, Plain) else st;
      DeclareRealisesNothing(next, self, members[1..]);
    }
  }

  lemma {:induction false} BindAllRealisesNothing(st: State, self: Ref, names: seq<string>)
    requires self < |st.heap|
    ensures BindAll(st, self, names).realised == st.realised
    decreases |names|
  {
    if names != [] {
      BindAllRealisesNothing(SetAttr(st, self, names[0], Plain), self, names[1..]);
    }
  }

  lemma {:induction false} BindFromRealisesNothing(st: State, self: Ref, value: Value, names: seq<string>)
    requires self < |st.heap| && (value.Module? ==> value.ref < |st.heap|)
    ensures BindFrom(st, self, value, names).0.realised == st.realised
    decreases |names|
  {
    if names != [] && (value.Plain? || HasAttr(st, value.ref, names[0])) {
      var v := if value.Plain? then Plain else st.heap[value.ref].attrs[names[0]];
      BindFromRealisesNothing(SetAttr(st, self, names[0], v), self, value, names[1..]);
    }
  }

  lemma {:induction false} ExecKeepsHeadsOpen(b: Bindings, st: State, self: Ref, stmts: seq<Stmt>)
    requires Inv(b, st) && HeadsOpen(b.denied, st) && self < |st.heap|
    ensures HeadsOpen(b.denied, Exec(b, st, self, stmts).0)
    decreases Unrealised(b, st), 6, stmts
  {
    hide HeadsOpen, Frame, Inv, Unrealised, SameCache;
    if stmts != [] {
      var (st1, completed) := ExecStmt(b, st, self, stmts[0]);
      StmtKeepsHeadsOpen(b, st, self, stmts[0]);
      if completed {
        Submodules.Moved(b, st, st1, {self});
        ExecKeepsHeadsOpen(b, st1, self, stmts[1..]);
      }
    }
  }

  lemma {:induction false} StmtKeepsHeadsOpen(b: Bindings, st: State, self: Ref, stmt: Stmt)
    requires Inv(b, st) && HeadsOpen(b.denied, st) && self < |st.heap|
    ensures HeadsOpen(b.denied, ExecStmt(b, st, self, stmt).0)
    decreases Unrealised(b, st), 6, stmt
  {
    hide Frame, Inv, Unrealised, SameCache, Exec, Dispatch;
    match stmt {
      case Try(body, handler) =>
        var (st1, completed) := Exec(b, st, self, body);
        ExecKeepsHeadsOpen(b, st, self, body);
        if !completed {
          Submodules.Moved(b, st, st1, {self});
          ExecKeepsHeadsOpen(b, st1, self, handler);
        }
      case Import(name, level, fromlist) =>
        var (st1, result) := Dispatch(b, st, st.heap[self].package, name, level, fromlist);
        DispatchKeepsHeadsOpen(b, st, st.heap[self].package, name, level, fromlist);
        if result.Ok? {
          Submodules.Moved(b, st, st1, {});
          BindImportRealisesNothing(st1, self, result.value, name, fromlist);
        }
      case _ =>
    }
  }

  lemma {:induction false} BindImportRealisesNothing(
    st: State, self: Ref, value: Value, name: string, fromlist: seq<string>)
    requires self < |st.heap| && (value.Module? ==> value.ref < |st.heap|)
    ensures BindImport(st, self, value, name, fromlist).0.realised == st.realised
  {
    if fromlist != [] {
      var names := if value.Module? then Wanted(st, value.ref, fromlist) else NotStar(fromlist);
      BindFromRealisesNothing(st, self, value, names);
    }
  }

  lemma {:induction false} DispatchKeepsHeadsOpen(
    b: Bindings, st: State, package: string, name: string, level: nat, fromlist: seq<string>)
    requires Inv(b, st) && HeadsOpen(b.denied, st)
    ensures HeadsOpen(b.denied, Dispatch(b, st, package, name, level, fromlist).0)
    decreases Unrealised(b, st), 4, 2
  {
    hide HeadsOpen, Frame, Inv, Unrealised, Resolve, Serve, Served;
    if Resolve(b, st, package, name, level).Resolved? {
      ResolvedIsOpen(b, st, package, name, level);
      ServeKeepsHeadsOpen(b, st, Resolve(b, st, package, name, level).name, fromlist);
    }
  }

  lemma {:induction false} ServeKeepsHeadsOpen(b: Bindings, st: State, d: Name, fromlist: seq<string>)
    requires Inv(b, st) && HeadsOpen(b.denied, st) && Head(d) !in b.denied
    ensures HeadsOpen(b.denied, Serve(b, st, d, fromlist).0)
    decreases Unrealised(b, st), 4, 1
  {
    hide HeadsOpen, Frame, Inv, Unrealised, Served, Chain, ImportModule, Answer, SameCache;
    var (st1, result) := ImportModule(b, st, d);
    ModuleKeepsHeadsOpen(b, st, d);
    if result.Ok? {
      Submodules.Moved(b, st, st1, {});
      AnswerKeepsHeadsOpen(b, st1, d, fromlist);
    }
  }

  lemma {:induction false} AnswerKeepsHeadsOpen(b: Bindings, st: State, d: Name, fromlist: seq<string>)
    requires Inv(b, st) && HeadsOpen(b.denied, st) && Chain(st, d, 0) && d in st.realised
    ensures HeadsOpen(b.denied, Answer(b, st, d, fromlist).0)
    decreases Unrealised(b, st), 4, 0
  {
    assert st.realised[d] < |st.heap|;
    hide Frame, Inv, Unrealised, Served, Expanded, Chain, Expand, Wanted;
    if fromlist != [] {
      ExpandKeepsHeadsOpen(b, st, st.realised[d], d, Wanted(st, st.realised[d], fromlist));
    }
  }

  // The submodules of a from-list have the head of their module.
  lemma {:induction false} ExpandKeepsHeadsOpen(b: Bindings, st: State, ref: Ref, dotted: Name, wanted: seq<string>)
    requires Inv(b, st) && HeadsOpen(b.denied, st)
    requires dotted in st.realised && st.realised[dotted] == ref && Chain(st, dotted, 0)
    ensures HeadsOpen(b.denied, Expand(b, st, ref, dotted, wanted).0)
    decreases Unrealised(b, st), 3, |wanted|
  {
    assert ref < |st.heap| && Head(dotted) !in b.denied;
    hide HeadsOpen, Frame, Inv, Unrealised, Expanded, ImportModule, Linked, Chain, Expand;
    if wanted == [] {
      Submodules.ExpandNothing(b, st, ref, dotted);
    } else {
      ImportLaws.ExpandUnfolds(b, st, ref, dotted, wanted);
      if HasAttr(st, ref, wanted[0]) {
        ExpandKeepsHeadsOpen(b, st, ref, dotted, wanted[1..]);
      } else {
        var (st1, result) := ImportModule(b, st, dotted + "." + wanted[0]);
        HeadOfChild(dotted, wanted[0]);
        ModuleKeepsHeadsOpen(b, st, dotted + "." + wanted[0]);
        if result.Ok? || result.error.ImportError? {
          Submodules.Moved(b, st, st1, {});
          ExpandKeepsHeadsOpen(b, st1, ref, dotted, wanted[1..]);
        }
      }
    }
  }

  lemma {:induction false} ModuleKeepsHeadsOpen(b: Bindings, st: State, d: Name)
    requires Inv(b, st) && HeadsOpen(b.denied, st) && Head(d) !in b.denied
    ensures HeadsOpen(b.denied, ImportModule(b, st, d).0)
    decreases Unrealised(b, st), 2
  {
    hide HeadsOpen, Frame, Inv, Unrealised, ImportFrom, Linked;
    ImportFromKeepsHeadsOpen(b, st, d, 0);
  }

  lemma {:induction false} ImportFromKeepsHeadsOpen(b: Bindings, st: State, d: Name, i: nat)
    requires Inv(b, st) && HeadsOpen(b.denied, st) && Head(d) !in b.denied && i < |Prefixes(d)|
    ensures HeadsOpen(b.denied, ImportFrom(b, st, d, i).0)
    decreases Unrealised(b, st), 1, |Prefixes(d)| - i
  {
    hide HeadsOpen, Frame, Inv, Unrealised, Linked, Chain, ImportPrefix, SameCache, PrefixesRealised;
    HeadOfPrefix(d, i);
    var (st1, result) := ImportPrefix(b, st, Prefixes(d)[i]);
    PrefixKeepsHeadsOpen(b, st, Prefixes(d)[i]);
    if result.Ok? && i + 1 < |Prefixes(d)| {
      Submodules.Moved(b, st, st1, {});
      ImportFromKeepsHeadsOpen(b, st1, d, i + 1);
    }
  }

  lemma {:induction false} PrefixKeepsHeadsOpen(b: Bindings, st: State, d: Name)
    requires Inv(b, st) && HeadsOpen(b.denied, st) && Head(d) !in b.denied
    ensures HeadsOpen(b.denied, ImportPrefix(b, st, d).0)
    decreases Unrealised(b, st), 1, 0
  {
    Submodules.RealisedRef(b, st, d);
    hide Frame, Inv, Unrealised, Linked, Realise, Transaction;
    RealiseKeepsHeadsOpen(b, st, d);
  }

  lemma {:induction false} RealiseKeepsHeadsOpen(b: Bindings, st: State, d: Name)
    requires Inv(b, st) && HeadsOpen(b.denied, st) && Head(d) !in b.denied
    ensures HeadsOpen(b.denied, Realise(b, st, d).0)
    decreases Unrealised(b, st), 0, 1
  {
    hide Frame, Inv, Unrealised, Transaction, RealiseHost, RealiseBundle;
    if d !in st.realised {
      if d in b.specs {
        HostKeepsHeadsOpen(b, st, d);
      } else if d !in b.natives && d in b.sources {
        BundleKeepsHeadsOpen(b, st, d);
      }
    }
  }

  lemma {:induction false} HostKeepsHeadsOpen(b: Bindings, st: State, d: Name)
    requires Inv(b, st) && HeadsOpen(b.denied, st) && Head(d) !in b.denied && d in b.specs && d !in st.realised
    ensures HeadsOpen(b.denied, RealiseHost(b, st, d).0)
  {
    var self, begun, members := |st.heap|, Begin(st, d, Host, ""), b.specs[d];
    DeclareRealisesNothing(begun, self, members);
    BindAllRealisesNothing(Declare(begun, self, members).0, self, LazyNames(members) + ["__getattr__"]);
    hide Frame, Inv, Transaction, Declare, BindAll;
  }

  lemma {:induction false} BundleKeepsHeadsOpen(b: Bindings, st: State, d: Name)
    requires Inv(b, st) && HeadsOpen(b.denied, st) && Head(d) !in b.denied
    requires d !in st.realised && d in b.sources && b.Preferred(d) == BundleSource
    ensures HeadsOpen(b.denied, RealiseBundle(b, st, d).0)
    decreases Unrealised(b, st), 0, 0
  {
    var bundle := b.sources[d];
    if d in bundle.modules && bundle.id in b.prepared {
      var begun := BeginBundle(st, d, bundle.modules[d]);
      Submodules.BundleUnfolds(b, st, d);
      assert HeadsOpen(b.denied, begun) by { BeginBundleFrame(b, st, d, bundle.modules[d]); hide Frame, Inv; }
      hide Transaction, Inv, Frame, BeginBundle, Unrealised, RealiseBundle;
      ExecKeepsHeadsOpen(b, begun, |st.heap|, bundle.modules[d].body);
      hide Exec;
    }
  }

  // ----- whole runs and lives --------------------------------------------------------------------

  lemma {:induction false} StepKeepsHeadsOpen(b: Bindings, st: State, call: Call)
    requires Inv(b, st) && MAIN < |st.heap| && HeadsOpen(b.denied, st)
    ensures HeadsOpen(b.denied, Step(b, st, call))
  {
    match call {
      case RunMain(stmts) => ExecKeepsHeadsOpen(b, st, MAIN, stmts);
      case HostImport(d) =>
        if Resolve(b, st, "", d, 0).Resolved? {
          ResolvedIsOpen(b, st, "", d, 0);
          ModuleKeepsHeadsOpen(b, st, d);
        }
    }
  }

  // Nothing under a denied head is ever realised, whatever is imported and mounted.
  lemma {:induction false} LifeKeepsHeadsOpen(
    f: MountedRuns.Fixed, loads: MountedRuns.Loading, g: MountedRuns.Guest, events: seq<MountedRuns.Event>)
    requires MountedRuns.Ready(f, loads, g) && HeadsOpen(f.denied, g.state)
    ensures HeadsOpen(f.denied, MountedRuns.Live(f, loads, g, events).state)
    decreases |events|
  {
    hide HeadsOpen, MountedRuns.Ready, MountedRuns.Kept, Step;
    if events != [] {
      MountedRuns.Happened(f, loads, g, events[0]);
      match events[0] {
        case Called(call) => EventKeepsHeadsOpen(f, loads, g, call);
        case Mounted(_) =>
      }
      LifeKeepsHeadsOpen(f, loads, MountedRuns.Happen(f, loads, g, events[0]), events[1..]);
    }
  }

  lemma {:induction false} EventKeepsHeadsOpen(
    f: MountedRuns.Fixed, loads: MountedRuns.Loading, g: MountedRuns.Guest, call: Call)
    requires MountedRuns.Ready(f, loads, g) && HeadsOpen(f.denied, g.state)
    ensures HeadsOpen(f.denied, MountedRuns.Happen(f, loads, g, MountedRuns.Called(call)).state)
  {
    hide HeadsOpen, Step;
    StepKeepsHeadsOpen(MountedRuns.BindingsOf(f, loads, g.sources), g.state, call);
  }

  lemma {:induction false} BornLifeKeepsHeadsOpen(
    f: MountedRuns.Fixed, loads: MountedRuns.Loading, bundles: seq<Overlay.Listed>, events: seq<MountedRuns.Event>)
    requires Overlay.PrepareAll(bundles).Some?
    ensures MountedRuns.Ready(f, loads, MountedRuns.Born(bundles))
    ensures HeadsOpen(f.denied, MountedRuns.Live(f, loads, MountedRuns.Born(bundles), events).state)
  {
    MountedRuns.BornReady(f, loads, bundles);
    assert HeadsOpen(f.denied, MountedRuns.Born(bundles).state);
    hide MountedRuns.Ready, MountedRuns.Born, Overlay.PrepareAll;
    LifeKeepsHeadsOpen(f, loads, MountedRuns.Born(bundles), events);
  }

  lemma {:induction false} RunKeepsHeadsOpen(b: Bindings, st: State, calls: seq<Call>)
    requires Inv(b, st) && MAIN < |st.heap| && HeadsOpen(b.denied, st)
    ensures HeadsOpen(b.denied, Run(b, st, calls))
    decreases |calls|
  {
    hide HeadsOpen, Step, Frame;
    if calls != [] {
      MountedRuns.StepFrame(b, st, calls[0]);
      Submodules.Moved(b, st, Step(b, st, calls[0]), {MAIN});
      StepKeepsHeadsOpen(b, st, calls[0]);
      RunKeepsHeadsOpen(b, Step(b, st, calls[0]), calls[1..]);
    }
  }

  // ----- everything else can be realised -------------------------------------------------------------

  // A guest whose only modules are native ones that load.
  function Natives(names: set<Name>, denied: set<Name>): Bindings {
    Bindings(map[], map d | d in names :: None, map[], {}, map[], denied, {})
  }

  lemma {:induction false} NativeImports(names: set<Name>, denied: set<Name>, st: State, d: Name, i: nat)
    requires Inv(Natives(names, denied), st) && i < |Prefixes(d)| && PrefixesRealised(st, d, i)
    requires forall k :: 0 <= k < |Prefixes(d)| ==> Prefixes(d)[k] in names
    ensures ImportFrom(Natives(names, denied), st, d, i).1.Ok?
    decreases |Prefixes(d)| - i
  {
    var b, prefix := Natives(names, denied), Prefixes(d)[i];
    PrefixFacts(st, d, i);
    ParentIsRealised(st, prefix);
    NativePrefix(names, denied, st, prefix);
    var st1 := ImportPrefix(b, st, prefix).0;
    Submodules.Moved(b, st, st1, {});
    hide Frame, Inv, ParentsRealised, ImportPrefix, Natives, Linked, Chain;
    if i + 1 < |Prefixes(d)| {
      PrefixesGrow(st, st1, d, i);
      hide PrefixesRealised;
      NativeImports(names, denied, st1, d, i + 1);
    }
  }

  lemma {:induction false} NativePrefix(names: set<Name>, denied: set<Name>, st: State, d: Name)
    requires Inv(Natives(names, denied), st) && ParentsRealised(st, d) && d in names
    ensures ImportPrefix(Natives(names, denied), st, d).1.Ok?
  {
    var b := Natives(names, denied);
    Submodules.RealisedRef(b, st, d);
    ParentIsRealised(st, d);
    assert Realise(b, st, d).1.Ok? && SameCache(st, Realise(b, st, d).0) by { hide Frame, Inv; }
    hide Frame, Inv, Realise, Natives, Transaction, Linked;
  }

  // The remainder of a dotted name behind its head.
  lemma {:induction false} BehindHead(d: Name) returns (rest: string)
    requires '.' in d
    ensures d == Head(d) + "." + rest && '.' !in Head(d)
    decreases |d|
  {
    assert d == [d[0]] + d[1..];
    if d[0] == '.' {
      rest := d[1..];
    } else {
      rest := BehindHead(d[1..]);
    }
  }

  predicate Reaches(b: Bindings, calls: seq<Call>, d: Name) {
    d in Run(b, Init(), calls).realised
  }

  lemma {:induction false} NativeNames(d: Name) returns (names: set<Name>)
    ensures forall k :: 0 <= k < |Prefixes(d + ".x")| ==> Prefixes(d + ".x")[k] in names
    ensures forall k :: 0 <= k < |Prefixes(d)| ==> Prefixes(d)[k] in names
    ensures d in names && Head(d) in names
  {
    names := set p | p in Prefixes(d + ".x");
    assert d + "." + "x" == d + ".x";
    ChildName(d, "x");
    ParentOfPrefix(d, 0);
    assert forall k :: 0 <= k < |Prefixes(d)| ==> Prefixes(d)[k] == Prefixes(d + ".x")[k];
  }

  lemma {:induction false} HostImportReaches(names: set<Name>, denied: set<Name>, d: Name)
    requires '.' !in d && d in names && d !in denied
    ensures Reaches(Natives(names, denied), [HostImport(d)], d)
  {
    var b := Natives(names, denied);
    PlainName(d);
    NativeImports(names, denied, Init(), d, 0);
    assert Resolve(b, Init(), "", d, 0) == Resolved(d);
    hide Frame, ImportFrom, Resolve;
    ImportRuns.StepKeepsInv(b, Init(), HostImport(d));
    assert [HostImport(d)][1..] == [];
  }

  // A from-list on the head leads to any name under it; the suffix keeps the item from being a star.
  lemma {:induction false} FromListReaches(names: set<Name>, denied: set<Name>, d: Name, rest: string)
    requires d == Head(d) + "." + rest && '.' !in Head(d) && Head(d) in names && Head(d) !in denied
    requires forall k :: 0 <= k < |Prefixes(d + ".x")| ==> Prefixes(d + ".x")[k] in names
    ensures Reaches(Natives(names, denied), [RunMain([Import(Head(d), 0, [rest + ".x"])])], d)
  {
    var b, stmt := Natives(names, denied), Import(Head(d), 0, [rest + ".x"]);
    DispatchReaches(names, denied, d, rest);
    StatementKeeps(b, Init(), MAIN, Head(d), 0, [rest + ".x"]);
    ImportRuns.ExecOne(b, Init(), MAIN, stmt);
    hide Frame, Exec, ExecStmt, Dispatch, Natives;
    ImportRuns.StepKeepsInv(b, Init(), RunMain([stmt]));
    assert [RunMain([stmt])][1..] == [];
  }

  // Binding what an import answered realises nothing more.
  lemma {:induction false} StatementKeeps(
    b: Bindings, st: State, self: Ref, name: string, level: nat, fromlist: seq<string>)
    requires Inv(b, st) && self < |st.heap|
    ensures ExecStmt(b, st, self, Import(name, level, fromlist)).0.realised ==
              Dispatch(b, st, st.heap[self].package, name, level, fromlist).0.realised
  {
    var (st1, result) := Dispatch(b, st, st.heap[self].package, name, level, fromlist);
    Submodules.Moved(b, st, st1, {});
    hide Frame, Dispatch, Inv;
    if result.Ok? {
      BindImportRealisesNothing(st1, self, result.value, name, fromlist);
    }
    hide BindImport;
  }

  lemma {:induction false} DispatchReaches(names: set<Name>, denied: set<Name>, d: Name, rest: string)
    requires d == Head(d) + "." + rest && '.' !in Head(d) && Head(d) in names && Head(d) !in denied
    requires forall k :: 0 <= k < |Prefixes(d + ".x")| ==> Prefixes(d + ".x")[k] in names
    ensures d in Dispatch(Natives(names, denied), Init(), "", Head(d), 0, [rest + ".x"]).0.realised
  {
    var b, head, w := Natives(names, denied), Head(d), rest + ".x";
    PlainName(head);
    assert Resolve(b, Init(), "", head, 0) == Resolved(head);
    var st1 := Begin(Init(), head, Native, "");
    NativeHead(names, denied, head);
    hide Frame, Inv, ImportModule, Natives, Resolve, Begin, Linked, Served;
    AnswerReaches(names, denied, st1, d, rest);
    hide Answer, Chain;
    assert Serve(b, Init(), head, [w]) == Answer(b, st1, head, [w]);
    hide Serve;
    assert Dispatch(b, Init(), "", head, 0, [w]) == Serve(b, Init(), head, [w]);
  }

  lemma {:induction false} NativeHead(names: set<Name>, denied: set<Name>, head: Name)
    requires '.' !in head && head in names
    ensures var b, st1 := Natives(names, denied), Begin(Init(), head, Native, "");
            && Inv(b, Init()) && Inv(b, st1) && ImportModule(b, Init(), head) == (st1, Ok(1))
            && Chain(st1, head, 0) && head in st1.realised && st1.realised[head] == 1
            && |st1.heap| == 2 && st1.heap[1].attrs == map[]
  {
    PlainName(head);
    ImportRuns.ImportPlain(Natives(names, denied), Init(), head);
    hide Frame, Transaction, ImportModule;
  }

  lemma {:induction false} ImportReaches(names: set<Name>, denied: set<Name>, st: State, d: Name)
    requires Inv(Natives(names, denied), st)
    requires forall k :: 0 <= k < |Prefixes(d + ".x")| ==> Prefixes(d + ".x")[k] in names
    ensures d in ImportModule(Natives(names, denied), st, d + ".x").0.realised
  {
    NativeImports(names, denied, st, d + ".x", 0);
    assert d + "." + "x" == d + ".x";
    ChildName(d, "x");
    assert Prefixes(d + ".x")[|Prefixes(d)| - 1] == d;
    hide Frame, Inv, Linked, Natives, ImportFrom;
    assert Chain(ImportModule(Natives(names, denied), st, d + ".x").0, d + ".x", 0);
  }

  lemma {:induction false} AnswerReaches(names: set<Name>, denied: set<Name>, st: State, d: Name, rest: string)
    requires Inv(Natives(names, denied), st) && d == Head(d) + "." + rest && '.' !in Head(d)
    requires forall k :: 0 <= k < |Prefixes(d + ".x")| ==> Prefixes(d + ".x")[k] in names
    requires Chain(st, Head(d), 0) && Head(d) in st.realised
    requires st.realised[Head(d)] < |st.heap| && st.heap[st.realised[Head(d)]].attrs == map[]
    ensures d in Answer(Natives(names, denied), st, Head(d), [rest + ".x"]).0.realised
  {
    var b, head, w := Natives(names, denied), Head(d), rest + ".x";
    var ref := st.realised[head];
    assert d + ".x" == head + "." + w;
    assert w != "*" by { assert |w| > 1; }
    hide Frame, Linked, ImportModule, Natives, Expanded, Served;
    ImportReaches(names, denied, st, d);
    ImportLaws.ExpandsOne(b, st, ref, head, w);
    hide Expand, Inv, Chain;
    assert Wanted(st, ref, [w]) == [w];
    assert Answer(b, st, head, [w]).0 == Expand(b, st, ref, head, [w]).0;
  }

  // Some guest with the denied names realises a name exactly if its head is not denied.
  lemma {:induction false} RealisableIff(denied: set<Name>, d: Name)
    ensures Head(d) !in denied <==>
              exists b: Bindings, calls :: b.Valid() && b.denied == denied && Reaches(b, calls, d)
  {
    if Head(d) !in denied {
      var names := NativeNames(d);
      var b := Natives(names, denied);
      assert b.Valid() && b.denied == denied;
      hide Natives, Reaches;
      if '.' in d {
        var rest := BehindHead(d);
        FromListReaches(names, denied, d, rest);
      } else {
        PlainName(d);
        HostImportReaches(names, denied, d);
      }
    } else {
      forall b: Bindings, calls | b.denied == denied
        ensures !Reaches(b, calls, d)
      {
        NeverReached(b, calls, d);
      }
    }
  }

  lemma {:induction false} NeverReached(b: Bindings, calls: seq<Call>, d: Name)
    requires Head(d) in b.denied
    ensures !Reaches(b, calls, d)
  {
    RunKeepsHeadsOpen(b, Init(), calls);
    hide Run;
  }

  // Denying names keeps every denied name out of every run exactly if it denies their heads.
  lemma {:induction false} DenialHoldsIff(denied: set<Name>)
    ensures (forall b: Bindings, calls, d :: b.denied == denied && IsDenied(d, denied) ==> !Reaches(b, calls, d))
            <==> forall e :: e in denied ==> Head(e) in denied
  {
    hide Reaches;
    if e :| e in denied && Head(e) !in denied {
      RealisableIff(denied, e);
      assert IsDenied(e, denied) by { assert Prefixes(e)[|Prefixes(e)| - 1] in denied; }
    } else {
      forall b: Bindings, calls, d | b.denied == denied && IsDenied(d, denied)
        ensures !Reaches(b, calls, d)
      {
        var i :| 0 <= i < |Prefixes(d)| && Prefixes(d)[i] in denied;
        HeadOfPrefix(d, i);
        NeverReached(b, calls, d);
      }
    }
  }
}
