/**
 From-lists.  Which names a from-list stands for, what becomes of each of them when the importer works
 through the list, and what the statement binds in the end.
 */
module FromLists {
  import opened Wrappers
  import opened Names
  import opened Importer
  import opened ImportLaws
  import opened ImportOutcomes
  import opened ImportRuns

  // ----- the names a from-list stands for -------------------------------------------------------

  lemma {:induction false} NotStarIff(names: seq<string>, w: string)
    ensures w in NotStar(names) <==> w in names && w != "*"
    ensures "*" !in names ==> NotStar(names) == names
  {
    if names != [] {
      assert names == [names[0]] + names[1..];
      NotStarIff(names[1..], w);
    }
  }

  // A name is worked through exactly if it is listed and no star, or a star is listed, the module has
  // `__all__`, and the name is in it and no star.
  lemma {:induction false} WantedIff(st: State, ref: Ref, names: seq<string>, w: string)
    requires ref < |st.heap|
    ensures w in Wanted(st, ref, names) <==>
              && w != "*"
              && (w in names || ("*" in names && "__all__" in st.heap[ref].attrs && w in st.heap[ref].exports))
    decreases |names|
  {
    if names != [] {
      assert names == [names[0]] + names[1..];
      WantedIff(st, ref, names[1..], w);
      NotStarIff(st.heap[ref].exports, w);
    }
  }

  // The names come in the order of the list, and those of `__all__` in its own order in place of the star.
  lemma {:induction false} WantedInOrder(st: State, ref: Ref, first: seq<string>, rest: seq<string>)
    requires ref < |st.heap|
    ensures Wanted(st, ref, first + rest) == Wanted(st, ref, first) + Wanted(st, ref, rest)
    ensures "*" !in first ==> Wanted(st, ref, first) == first
    ensures "__all__" in st.heap[ref].attrs && "*" !in st.heap[ref].exports ==>
              Wanted(st, ref, ["*"]) == st.heap[ref].exports
    decreases |first|
  {
    NotStarIff(st.heap[ref].exports, "*");
    assert Wanted(st, ref, ["*"]) == (if HasAttr(st, ref, "__all__") then NotStar(st.heap[ref].exports) else []) + [];
    if first == [] {
      assert first + rest == rest;
    } else {
      assert (first + rest)[1..] == first[1..] + rest;
      WantedInOrder(st, ref, first[1..], rest);
    }
  }

  // ----- working through the list -----------------------------------------------------------------

  ghost predicate Ready(b: Bindings, st: State, ref: Ref, dotted: Name) {
    Inv(b, st) && dotted in st.realised && st.realised[dotted] == ref && Chain(st, dotted, 0)
  }

  lemma {:induction false} ReadyKept(b: Bindings, st: State, st1: State, ref: Ref, dotted: Name)
    requires Ready(b, st, ref, dotted) && Frame(b, st, st1, {}, {})
    ensures Ready(b, st1, ref, dotted) && ref < |st1.heap|
  {
    ChainKept(b, st, st1, dotted);
    hide Chain, KeepsLinks, LinksNew, SameAttempts;
  }

  // A list is worked through piece by piece, unless an earlier piece broke off.
  lemma {:induction false} ExpandAppend(
    b: Bindings, st: State, ref: Ref, dotted: Name, first: seq<string>, rest: seq<string>)
    requires Ready(b, st, ref, dotted)
    ensures var (st1, failed) := Expand(b, st, ref, dotted, first);
            && Ready(b, st1, ref, dotted) && ref < |st1.heap|
            && Expand(b, st, ref, dotted, first + rest) ==
                 (if failed.Some? then (st1, failed) else Expand(b, st1, ref, dotted, rest))
    decreases |first|
  {
    ReadyKept(b, st, st, ref, dotted) by {
      FrameRefl(b, st, {}, {});
    }
    if first == [] {
      assert first + rest == rest;
      assert Expand(b, st, ref, dotted, first) == (st, None);
    } else {
      hide Expand, ImportModule, Inv, Chain;
      assert (first + rest)[0] == first[0] && (first + rest)[1..] == first[1..] + rest;
      ExpandUnfolds(b, st, ref, dotted, first);
      ExpandUnfolds(b, st, ref, dotted, first + rest);
      var st1 := ImportModule(b, st, dotted + "." + first[0]).0;
      ExpandAppend(b, if HasAttr(st, ref, first[0]) then st else st1, ref, dotted, first[1..], rest);
    }
  }

  // A from-list is worked through from left to right, and the first submodule whose import fails
  // with anything but an import error ends it with that error.
  lemma {:induction false} ExpandReportsFirstBreak(
    b: Bindings, st: State, ref: Ref, dotted: Name, wanted: seq<string>, i: nat)
    requires Ready(b, st, ref, dotted) && i < |wanted|
    ensures var (st1, failed) := Expand(b, st, ref, dotted, wanted[..i]);
            && Ready(b, st1, ref, dotted) && ref < |st1.heap|
            && var (st2, r) := ImportModule(b, st1, dotted + "." + wanted[i]);
               failed.None? && wanted[i] !in st1.heap[ref].attrs && r.Err? && !r.error.ImportError? ==>
                 Expand(b, st, ref, dotted, wanted) == (st2, Some(r.error))
  {
    assert wanted == wanted[..i] + wanted[i..] && wanted[i..][0] == wanted[i];
    hide Expand, ImportModule, Inv, Chain;
    ExpandAppend(b, st, ref, dotted, wanted[..i], wanted[i..]);
    ExpandUnfolds(b, Expand(b, st, ref, dotted, wanted[..i]).0, ref, dotted, wanted[i..]);
  }

  // What becomes of the name at place `i` of a list that is worked through to its end: the module had it when
  // its turn came, or it was imported then and is bound for good, or there is no such module to import.
  lemma {:induction false} EachNameIsTried(
    b: Bindings, st: State, ref: Ref, dotted: Name, wanted: seq<string>, i: nat)
    requires Ready(b, st, ref, dotted) && i < |wanted| && '.' !in wanted[i]
    ensures var before := Expand(b, st, ref, dotted, wanted[..i]).0;
            var (after, failed) := Expand(b, st, ref, dotted, wanted);
            && Ready(b, before, ref, dotted) && ref < |before.heap| && ref < |after.heap|
            && (failed.None? ==> Tried(b, before, ref, dotted, wanted[i], after))
  {
    var w, child := wanted[i], dotted + "." + wanted[i];
    assert wanted == wanted[..i] + wanted[i..] && wanted[i..][0] == w && wanted[i..][1..] == wanted[i + 1..];
    hide Expand, ImportModule, Frame;
    RestKeeps(b, st, ref, dotted, wanted, w);
    ExpandAppend(b, st, ref, dotted, wanted[..i], wanted[i..]);
    var before := Expand(b, st, ref, dotted, wanted[..i]).0;
    ExpandUnfolds(b, before, ref, dotted, wanted[i..]);
    ChildName(dotted, w);
    var (st1, r) := ImportModule(b, before, child);
    hide Inv, Chain;
    if w in before.heap[ref].attrs {
      RestKeeps(b, before, ref, dotted, wanted[i + 1..], w);
    } else {
      RestKeeps(b, st1, ref, dotted, wanted[i + 1..], w);
      if r.Ok? {
        ChildLinked(b, before, child);
      }
    }
  }

  // What a list that went on to its end did for a name whose turn came in the state `before`.
  ghost predicate Tried(b: Bindings, before: State, ref: Ref, dotted: Name, w: string, after: State)
    requires Ready(b, before, ref, dotted) && ref < |before.heap| && ref < |after.heap|
  {
    var child := dotted + "." + w;
    var r := ImportModule(b, before, child).1;
    if w in before.heap[ref].attrs then w in after.heap[ref].attrs
    else if r.Ok? then
      && child in after.realised && after.realised[child] == r.value && Linked(after, child)
      && w in after.heap[ref].attrs && after.heap[ref].attrs[w] == Module(r.value)
    else r.error.ImportError?
  }

  // What is bound in the module stays, whatever follows in the list.
  lemma {:induction false} RestKeeps(b: Bindings, st: State, ref: Ref, dotted: Name, rest: seq<string>, w: string)
    requires Ready(b, st, ref, dotted) && '.' !in w && ref < |st.heap|
    ensures var after, child := Expand(b, st, ref, dotted, rest).0, dotted + "." + w;
            && Ready(b, after, ref, dotted) && ref < |after.heap|
            && (w in st.heap[ref].attrs ==> w in after.heap[ref].attrs)
            && (Linked(st, child) ==>
                 && Linked(after, child) && after.realised[child] == st.realised[child]
                 && w in after.heap[ref].attrs && after.heap[ref].attrs[w] == Module(st.realised[child]))
  {
    var after := Expand(b, st, ref, dotted, rest).0;
    ReadyKept(b, st, after, ref, dotted);
    hide Expand;
    ChildName(dotted, w);
    LinkStays(b, st, after, dotted + "." + w);
    hide KeepsLinks, LinksNew, SameAttempts, NewPreferred;
  }

  lemma {:induction false} ChildLinked(b: Bindings, st: State, child: Name)
    requires Inv(b, st) && Parent(child).Some?
    ensures var (st1, r) := ImportModule(b, st, child);
            r.Ok? ==> child in st1.realised && st1.realised[child] == r.value && Linked(st1, child)
  {
    ParentOfPrefix(child, |Prefixes(child)| - 1);
    hide Frame, Linked, Inv;
  }

  // ----- names whose source succeeds ------------------------------------------------------------------

  // Code that only binds names.
  predicate Quiet(stmts: seq<Stmt>) {
    forall i :: 0 <= i < |stmts| ==> stmts[i].Bind? || stmts[i].Export?
  }

  // The source the name comes from makes a module whatever has happened before.
  predicate Loads(b: Bindings, d: Name) {
    if d in b.specs then forall i :: 0 <= i < |b.specs[d]| ==> !b.specs[d][i].Failing?
    else if d in b.natives then b.natives[d].None?
    else if d in b.sources then
      && d in b.sources[d].modules && b.sources[d].id in b.prepared
      && b.sources[d].modules[d].compiles && Quiet(b.sources[d].modules[d].body)
    else d in b.extensions && b.extensions[d].None?
  }

  lemma {:induction false} QuietCompletes(b: Bindings, st: State, self: Ref, stmts: seq<Stmt>)
    requires Inv(b, st) && self < |st.heap| && Quiet(stmts)
    ensures Exec(b, st, self, stmts).1
    decreases |stmts|
  {
    if stmts != [] {
      var st1 := ExecStmt(b, st, self, stmts[0]).0;
      assert Frame(b, st, st1, {self}, {});
      hide Frame, Inv, Linked;
      assert stmts[0].Bind? || stmts[0].Export?;
      QuietCompletes(b, st1, self, stmts[1..]);
    }
  }

  lemma {:induction false} LoadsAlways(b: Bindings, st: State, d: Name)
    requires Inv(b, st) && Loads(b, d) && forall p :: p in Prefixes(d) && p != d ==> p in st.realised
    ensures Realise(b, st, d).1.Ok?
  {
    hide Frame, Inv, Linked, Transaction, Exec, Realise;
    if d in st.realised {
      assert Realise(b, st, d).1.Ok? by { CachedIsFound(b, st, d); }
    } else if d in b.specs {
      HostOutcome(b, st, d);
    } else if d in b.natives {
      NativeOutcome(b, st, d);
    } else if d in b.sources {
      var source := b.sources[d].modules[d];
      BundleOutcome(b, st, d);
      QuietCompletes(b, WithNew(st, NewModule(d, source)), |st.heap|, source.body);
    } else {
      ExtensionOutcome(b, st, d);
    }
  }

  lemma {:induction false} CachedIsFound(b: Bindings, st: State, d: Name)
    requires Inv(b, st) && d in st.realised
    ensures Realise(b, st, d) == (st, Ok(st.realised[d]))
  {
    hide Realise;
  }

  // A submodule of a module that is there with its chain is imported by realising it.
  lemma {:induction false} SubmoduleOutcome(b: Bindings, st: State, ref: Ref, dotted: Name, w: string)
    requires Ready(b, st, ref, dotted) && '.' !in w
    ensures ImportModule(b, st, dotted + "." + w).1 == Realise(b, st, dotted + "." + w).1
  {
    var child := dotted + "." + w;
    ChildName(dotted, w);
    hide Frame, Realise, ImportFrom, ImportPrefix, Linked, Inv, Transaction;
    LastPrefix(b, st, child, 0);
    PrefixOutcome(b, st, child);
  }

  lemma {:induction false} PrefixOutcome(b: Bindings, st: State, d: Name)
    requires Inv(b, st) && Parent(d).Some? && Parent(d).value.0 in st.realised
    ensures ImportPrefix(b, st, d).1 == Realise(b, st, d).1
  {
    RealiseKeeps(b, st, d);
    hide Frame, Realise, Linked, Inv, Transaction, BindChild;
  }

  lemma {:induction false} LastPrefix(b: Bindings, st: State, d: Name, i: nat)
    requires Inv(b, st) && i < |Prefixes(d)|
    requires forall k :: 0 <= k < |Prefixes(d)| - 1 ==>
               Prefixes(d)[k] in st.realised && (k > 0 ==> Linked(st, Prefixes(d)[k]))
    ensures ImportFrom(b, st, d, i) == ImportPrefix(b, st, d)
    decreases |Prefixes(d)| - i
  {
    hide Frame, Linked, ImportFrom, ImportPrefix, Inv;
    ImportUnfolds(b, st, d, i);
    if i + 1 < |Prefixes(d)| {
      ParentOfPrefix(d, i);
      ReimportPrefix(b, st, Prefixes(d)[i]);
      LastPrefix(b, st, d, i + 1);
    }
  }

  // ----- the import and the statement -------------------------------------------------------------------

  // With a from-list the module itself is the answer, after the submodules it asks for have been tried.
  lemma {:induction false} DispatchExpands(
    b: Bindings, st: State, package: string, name: string, level: nat, fromlist: seq<string>)
    requires Inv(b, st) && fromlist != [] && Resolve(b, st, package, name, level).Resolved?
    ensures var d := Resolve(b, st, package, name, level).name;
            var (imported, found) := ImportModule(b, st, d);
            && (found.Ok? ==> Ready(b, imported, found.value, d) && found.value < |imported.heap|)
            && Dispatch(b, st, package, name, level, fromlist) ==
                 if found.Err? then (imported, Err(found.error))
                 else
                   var ref := found.value;
                   var (after, failed) := Expand(b, imported, ref, d, Wanted(imported, ref, fromlist));
                   (after, if failed.Some? then Err(failed.value) else Ok(Module(ref)))
  {
    var d := Resolve(b, st, package, name, level).name;
    var (imported, found) := ImportModule(b, st, d);
    FrameGives(b, st, imported);
    hide Frame, Linked, Inv, ImportModule, Chain, Served, Expanded, Expand, Resolve, Wanted;
    if found.Ok? {
      var wanted := Wanted(imported, found.value, fromlist);
      assert Answer(b, imported, d, fromlist).0 == Expand(b, imported, found.value, d, wanted).0;
    }
    hide Answer;
    assert Dispatch(b, st, package, name, level, fromlist) == Serve(b, st, d, fromlist);
  }

  // Every name asked for, by itself or through a star, is an attribute of the module on return if its
  // source makes a module.
  lemma {:induction false} ListedNamesArrive(
    b: Bindings, st: State, package: string, name: string, level: nat, fromlist: seq<string>, w: string)
    requires Inv(b, st) && fromlist != [] && Resolve(b, st, package, name, level).Resolved?
    requires w != "*" && '.' !in w
    ensures var d := Resolve(b, st, package, name, level).name;
            var imported := ImportModule(b, st, d).0;
            var (after, r) := Dispatch(b, st, package, name, level, fromlist);
            r.Ok? ==>
              && d in imported.realised && imported.realised[d] < |imported.heap|
              && var ref := imported.realised[d];
                 var listed := w in fromlist ||
                   ("*" in fromlist && "__all__" in imported.heap[ref].attrs && w in imported.heap[ref].exports);
                 && r.value == Module(ref) && ref < |after.heap|
                 && (listed && Loads(b, d + "." + w) ==> w in after.heap[ref].attrs)
  {
    DispatchExpands(b, st, package, name, level, fromlist);
    var d := Resolve(b, st, package, name, level).name;
    var (imported, found) := ImportModule(b, st, d);
    hide Dispatch, Resolve, ImportModule, Expand, Wanted, Inv, Chain, Loads;
    if found.Ok? {
      var ref := found.value;
      var wanted := Wanted(imported, ref, fromlist);
      WantedIff(imported, ref, fromlist, w);
      RestKeeps(b, imported, ref, d, wanted, w);
      if w in wanted && Loads(b, d + "." + w) {
        var i :| 0 <= i < |wanted| && wanted[i] == w;
        LoadsAtItsTurn(b, imported, ref, d, wanted, i);
      }
    }
  }

  // A name the module lacks when its turn comes is imported as its submodule if the source of that name makes
  // a module: it is realised and attached, whatever else the list asks for.  It is the first one's turn when
  // the module itself has just been imported.
  lemma {:induction false} LoadsAtItsTurn(
    b: Bindings, st: State, ref: Ref, dotted: Name, wanted: seq<string>, i: nat)
    requires Ready(b, st, ref, dotted) && i < |wanted| && '.' !in wanted[i] && Loads(b, dotted + "." + wanted[i])
    ensures var before := Expand(b, st, ref, dotted, wanted[..i]).0;
            var (after, failed) := Expand(b, st, ref, dotted, wanted);
            var child := dotted + "." + wanted[i];
            && ref < |st.heap| && ref < |before.heap| && ref < |after.heap|
            && (failed.None? ==> wanted[i] in after.heap[ref].attrs)
            && (failed.None? && wanted[i] !in before.heap[ref].attrs ==>
                 && child in after.realised && Linked(after, child)
                 && after.heap[ref].attrs[wanted[i]] == Module(after.realised[child]))
            && ((forall k :: 0 <= k < i ==> wanted[k] in st.heap[ref].attrs) ==> before == st)
  {
    hide Expand, ImportModule, Frame, Linked, Loads, Realise;
    EachNameIsTried(b, st, ref, dotted, wanted, i);
    var before := Expand(b, st, ref, dotted, wanted[..i]).0;
    var child := dotted + "." + wanted[i];
    ParentsOfChild(b, before, ref, dotted, wanted[i]);
    LoadsAlways(b, before, child);
    SubmoduleOutcome(b, before, ref, dotted, wanted[i]);
    if forall k :: 0 <= k < i ==> wanted[k] in st.heap[ref].attrs {
      NothingMissing(b, st, ref, dotted, wanted[..i]);
    }
    hide Inv, Chain;
  }

  lemma {:induction false} ParentsOfChild(b: Bindings, st: State, ref: Ref, dotted: Name, w: string)
    requires Ready(b, st, ref, dotted) && '.' !in w
    ensures forall p :: p in Prefixes(dotted + "." + w) && p != dotted + "." + w ==> p in st.realised
  {
    ChildName(dotted, w);
    hide Linked, Inv;
  }

  lemma {:induction false} NothingMissing(b: Bindings, st: State, ref: Ref, dotted: Name, wanted: seq<string>)
    requires Ready(b, st, ref, dotted) && ref < |st.heap|
    requires forall k :: 0 <= k < |wanted| ==> wanted[k] in st.heap[ref].attrs
    ensures Expand(b, st, ref, dotted, wanted) == (st, None)
    decreases |wanted|
  {
    if wanted != [] {
      hide Expand, Inv, Chain;
      ExpandUnfolds(b, st, ref, dotted, wanted);
      NothingMissing(b, st, ref, dotted, wanted[1..]);
    } else {
      hide Frame, Expanded;
    }
  }

  // ----- what the statement binds ------------------------------------------------------------------------

  // The statement reads each name from the module and stops at the first it does not have.
  lemma {:induction false} FromBinds(st: State, self: Ref, ref: Ref, names: seq<string>)
    requires self < |st.heap| && ref < |st.heap|
    ensures var (after, completed) := BindFrom(st, self, Module(ref), names);
            && Touches(st, self, after)
            && (completed <==> forall n :: n in names ==> n in st.heap[ref].attrs)
            && (forall n :: n !in names ==> (n in after.heap[self].attrs <==> n in st.heap[self].attrs))
            && (forall n :: n !in names && n in st.heap[self].attrs ==>
                  after.heap[self].attrs[n] == st.heap[self].attrs[n])
            && (completed ==> forall n :: n in names ==>
                  n in after.heap[self].attrs && after.heap[self].attrs[n] == st.heap[ref].attrs[n])
    decreases |names|
  {
    if names != [] && names[0] in st.heap[ref].attrs {
      assert names == [names[0]] + names[1..];
      FromBinds(SetAttr(st, self, names[0], st.heap[ref].attrs[names[0]]), self, ref, names[1..]);
    }
  }

  // `from m import names` for a module of this guest completes exactly if the import succeeds and the module
  // then has every name asked for; each is bound to what the module has, and nothing else is.
  lemma {:induction false} FromStatementBinds(
    b: Bindings, st: State, self: Ref, name: string, level: nat, fromlist: seq<string>)
    requires Inv(b, st) && self < |st.heap| && fromlist != []
    requires Resolve(b, st, st.heap[self].package, name, level).Resolved?
    ensures var (imported, r) := Dispatch(b, st, st.heap[self].package, name, level, fromlist);
            var (after, completed) := ExecStmt(b, st, self, Import(name, level, fromlist));
            if r.Err? then after == imported && !completed
            else
              && r.value.Module? && r.value.ref < |imported.heap| && Touches(imported, self, after)
              && var attrs, wanted := imported.heap[r.value.ref].attrs, Wanted(imported, r.value.ref, fromlist);
                 && (completed <==> forall n :: n in wanted ==> n in attrs)
                 && (completed ==> forall n :: n in wanted ==>
                       n in after.heap[self].attrs && after.heap[self].attrs[n] == attrs[n])
                 && (forall n :: n !in wanted ==>
                       (n in after.heap[self].attrs <==> n in imported.heap[self].attrs))
                 && (forall n :: n !in wanted && n in imported.heap[self].attrs ==>
                       after.heap[self].attrs[n] == imported.heap[self].attrs[n])
  {
    var package := st.heap[self].package;
    var (imported, r) := Dispatch(b, st, package, name, level, fromlist);
    FrameGives(b, st, imported);
    hide Frame, Inv, Linked, Dispatch, Touches, Wanted, BindFrom;
    if r.Ok? {
      assert Served(imported, Resolve(b, st, package, name, level).name, fromlist, r);
      FromBinds(imported, self, r.value.ref, Wanted(imported, r.value.ref, fromlist));
    }
  }

  // `import name` completes exactly if the import succeeds, and binds the first component and nothing else.
  lemma {:induction false} PlainStatementBinds(b: Bindings, st: State, self: Ref, name: string, level: nat)
    requires Inv(b, st) && self < |st.heap|
    ensures var (imported, r) := Dispatch(b, st, st.heap[self].package, name, level, []);
            var (after, completed) := ExecStmt(b, st, self, Import(name, level, []));
            if r.Err? then after == imported && !completed
            else
              && completed && Touches(imported, self, after)
              && after.heap[self].attrs == imported.heap[self].attrs[Split(name, '.')[0] := r.value]
  {
    var imported := Dispatch(b, st, st.heap[self].package, name, level, []).0;
    FrameGives(b, st, imported);
    HeadIsFirstComponent(name);
    hide Frame, Inv, Linked, Dispatch, Head, Split;
  }

  // A from-list of a delegated import binds each name but the star to what the ambient module has.
  lemma {:induction false} ForeignBinds(st: State, self: Ref, names: seq<string>)
    requires self < |st.heap|
    ensures var (after, completed) := BindFrom(st, self, Plain, names);
            && Touches(st, self, after) && completed
            && after.heap[self].attrs == st.heap[self].attrs + map n | n in names :: Plain
    decreases |names|
  {
    if names != [] {
      assert names == [names[0]] + names[1..];
      ForeignBinds(SetAttr(st, self, names[0], Plain), self, names[1..]);
    }
  }

  lemma {:induction false} ForeignStatementBinds(
    b: Bindings, st: State, self: Ref, name: string, level: nat, fromlist: seq<string>)
    requires Inv(b, st) && self < |st.heap| && fromlist != []
    requires Resolve(b, st, st.heap[self].package, name, level).Delegated?
    ensures var (after, completed) := ExecStmt(b, st, self, Import(name, level, fromlist));
            && (completed <==> (name, level) in b.foreign)
            && Touches(st, self, after)
            && after.heap[self].attrs ==
                 if completed then st.heap[self].attrs + map n | n in fromlist && n != "*" :: Plain
                 else st.heap[self].attrs
  {
    DelegatedImport(b, st, st.heap[self].package, name, level, fromlist);
    hide Frame, Inv, Linked, Dispatch, Resolve, NotStar, BindFrom;
    ForeignBinds(st, self, NotStar(fromlist));
    forall n: string
      ensures n in NotStar(fromlist) <==> n in fromlist && n != "*"
    {
      NotStarIff(fromlist, n);
    }
    assert (map n | n in NotStar(fromlist) :: Plain) == map n | n in fromlist && n != "*" :: Plain;
  }

  // ----- a run -----------------------------------------------------------------------------------------------

  function StarWorld(): Bindings {
    var bundle := Bundle(0, map["p" := Source([Export(["w"])], true, true), "p.w" := CHILD]);
    Bindings(map[], map[], map["p" := bundle, "p.w" := bundle], {0}, map[], {}, {})
  }

  lemma {:induction false} StarWorldIs()
    ensures Provides(StarWorld(), "p", Source([Export(["w"])], true, true))
    ensures StarWorld().denied == {} && Provides(StarWorld(), "p.w", CHILD)
  {
  }

  // A package that exports a submodule it has not imported, right after its code has run.
  lemma {:induction false} ExporterImported(b: Bindings)
    requires Provides(b, "p", Source([Export(["w"])], true, true))
    ensures var (after, r) := ImportModule(b, Init(), "p");
            && r == Ok(1) && |after.heap| == 2 && after.realised == map["p" := 1]
            && "__all__" in after.heap[1].attrs && after.heap[1].exports == ["w"] && "w" !in after.heap[1].attrs
  {
    var st, source := Init(), Source([Export(["w"])], true, true);
    var begun := BeginBundle(st, "p", source);
    ImportPlain(b, st, "p");
    RealiseProvided(b, st, "p", source);
    BundleBegun(st, "p", source);
    hide Frame, Realise, BeginBundle, Transaction, Exec, Provides;
    ExecOne(b, begun, 1, source.body[0]);
    hide Inv, ImportModule;
    assert ExecStmt(b, begun, 1, source.body[0]) == (SetExports(begun, 1, ["w"]), true);
  }

  // Its submodule is bound in it when the import returns.
  lemma {:induction false} ChildAdded(b: Bindings, st: State)
    requires Inv(b, st) && Provides(b, "p.w", CHILD) && "p.w" !in st.realised && |st.heap| == 2
    requires "p" in st.realised && st.realised["p"] == 1 && st.heap[1].exports == ["w"]
    ensures var (after, r) := ImportModule(b, st, "p.w");
            && r == Ok(2) && |after.heap| == 3 && after.heap[1].exports == ["w"]
            && Linked(after, "p.w") && after.realised == st.realised["p.w" := 2]
            && after.heap[1].attrs == st.heap[1].attrs["w" := Module(2)]
  {
    var begun := BeginBundle(st, "p.w", CHILD);
    ChildImported(b, st);
    BundleBegun(st, "p.w", CHILD);
    assert begun.heap[1] == begun.heap[..2][1];
    hide Frame, ImportModule, Provides, Inv, BeginBundle, Parent;
  }

  lemma {:induction false} OneExport(st: State, ref: Ref, w: string)
    requires ref < |st.heap| && "__all__" in st.heap[ref].attrs && st.heap[ref].exports == [w] && w != "*"
    ensures Wanted(st, ref, ["*"]) == [w]
  {
    WantedInOrder(st, ref, ["*"], []);
  }

  lemma {:induction false} ResolvesPlain(b: Bindings, st: State, d: Name)
    requires '.' !in d && d in b.Names() && b.denied == {}
    ensures Resolve(b, st, "", d, 0) == Resolved(d)
  {
    PlainName(d);
  }

  // After the package itself has been imported, the star brings in the submodule.
  lemma {:induction false} StarExpanded(b: Bindings, st: State)
    requires Ready(b, st, 1, "p") && Provides(b, "p.w", CHILD) && "p.w" !in st.realised && |st.heap| == 2
    requires "__all__" in st.heap[1].attrs && st.heap[1].exports == ["w"] && "w" !in st.heap[1].attrs
    ensures Wanted(st, 1, ["*"]) == ["w"]
    ensures var (after, failed) := Expand(b, st, 1, "p", ["w"]);
            && failed.None? && |after.heap| == 3 && Linked(after, "p.w") && after.realised == st.realised["p.w" := 2]
            && Wanted(after, 1, ["*"]) == ["w"] && after.heap[1].attrs == st.heap[1].attrs["w" := Module(2)]
  {
    hide Frame, Provides, Inv, ImportModule, Expand, Chain, Linked, Wanted;
    OneExport(st, 1, "w");
    assert "p" + "." + "w" == "p.w";
    ExpandsOne(b, st, 1, "p", "w");
    ChildAdded(b, st);
    OneExport(ImportModule(b, st, "p.w").0, 1, "w");
  }

  lemma {:induction false} StarDispatched(b: Bindings, st: State)
    requires Provides(b, "p", Source([Export(["w"])], true, true)) && Provides(b, "p.w", CHILD) && b.denied == {}
    requires st == Init() && Inv(b, st)
    ensures Resolve(b, st, "", "p", 0) == Resolved("p")
    ensures var (after, r) := Dispatch(b, st, "", "p", 0, ["*"]);
            && r == Ok(Module(1)) && |after.heap| == 3 && Linked(after, "p.w")
            && after.realised == map["p" := 1, "p.w" := 2] && Wanted(after, 1, ["*"]) == ["w"]
            && "w" in after.heap[1].attrs && after.heap[1].attrs["w"] == Module(2)
  {
    ResolvesPlain(b, st, "p");
    hide Resolve, Frame, Provides, Inv, Dispatch, ImportModule, Expand, Chain, Linked, Wanted;
    ExporterImported(b);
    DispatchExpands(b, st, "", "p", 0, ["*"]);
    StarExpanded(b, ImportModule(b, st, "p").0);
  }

  lemma {:induction false} TouchesKeepsLink(st: State, self: Ref, after: State, d: Name)
    requires Touches(st, self, after) && Linked(st, d) && st.realised[Parent(d).value.0] != self
    ensures Linked(after, d)
  {
  }

  lemma {:induction false} StarStatement(b: Bindings, st: State)
    requires Provides(b, "p", Source([Export(["w"])], true, true)) && Provides(b, "p.w", CHILD) && b.denied == {}
    requires st == Init() && Inv(b, st)
    ensures var (after, completed) := ExecStmt(b, st, MAIN, Import("p", 0, ["*"]));
            && completed && "p.w" in after.realised && Linked(after, "p.w")
            && MAIN < |after.heap| && "w" in after.heap[MAIN].attrs
            && after.heap[MAIN].attrs["w"] == Module(after.realised["p.w"])
  {
    hide Resolve, Frame, Provides, Inv, Dispatch, ExecStmt, Linked, Wanted;
    StarDispatched(b, st);
    FromStatementBinds(b, st, MAIN, "p", 0, ["*"]);
    PackageOfChild();
    TouchesKeepsLink(Dispatch(b, st, "", "p", 0, ["*"]).0, MAIN, ExecStmt(b, st, MAIN, Import("p", 0, ["*"])).0, "p.w");
  }

  lemma {:induction false} PackageOfChild()
    ensures Parent("p.w") == Some(("p", "w"))
  {
    assert "p" + "." + "w" == "p.w";
    ChildHead("p", "w");
  }

  // A star import brings in a submodule that the package lists in `__all__` and never imported itself.
  lemma {:induction false} StarImportsSubmodule()
    ensures var b := StarWorld();
            var (after, completed) := ExecStmt(b, Init(), MAIN, Import("p", 0, ["*"]));
            && completed && "p.w" in after.realised && Linked(after, "p.w")
            && MAIN < |after.heap| && "w" in after.heap[MAIN].attrs
            && after.heap[MAIN].attrs["w"] == Module(after.realised["p.w"])
  {
    StarWorldIs();
    hide StarWorld, ExecStmt, Linked, Provides;
    StarStatement(StarWorld(), Init());
  }
}
