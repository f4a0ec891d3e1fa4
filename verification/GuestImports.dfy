/**
 One guest's importer as the objects it updates in place: the module table, the attributes of
 the module objects and, while code runs, both of them again.  Every method leaves exactly the
 state and answer that `Importer` gives for the same call.
 */
module GuestImports {
  import opened Wrappers
  import opened Names
  import opened Importer

  class Guest {
    const bindings: Bindings
    var realised: map<Name, Ref>
    var heap: seq<Object>
    ghost var attempts: multiset<Name>
    ghost var faulted: bool
    ghost var bound: set<(Ref, Name)>

    ghost function Snap(): State
      reads this
    {
      State(realised, heap, attempts, faulted, bound)
    }

    ghost predicate Valid()
      reads this
    {
      Inv(bindings, Snap()) && MAIN < |heap|
    }

    constructor (b: Bindings)
      ensures bindings == b && Snap() == Init() && Valid()
    {
      bindings := b;
      realised, heap := map[], [Object("__main__", Main, "", map[], [])];
      attempts, faulted, bound := multiset{}, false, {};
    }

    // ----- the module table and the module objects -------------------------------------------

    method NewModule(d: Name, kind: Kind, package: string) returns (ref: Ref)
      modifies this`heap
      ensures ref == old(|heap|) && heap == old(heap) + [Object(d, kind, package, Seeds(kind), [])]
    {
      ref := |heap|;
      heap := heap + [Object(d, kind, package, Seeds(kind), [])];
    }

    method CacheModule(d: Name, ref: Ref)
      modifies this`realised
      ensures realised == old(realised)[d := ref]
    {
      realised := realised[d := ref];
    }

    method RemoveCached(d: Name)
      modifies this`realised
      ensures realised == old(realised) - {d}
    {
      realised := realised - {d};
    }

    method SetAttribute(ref: Ref, name: string, value: Value)
      requires ref < |heap|
      modifies this`heap
      ensures Snap() == SetAttr(old(Snap()), ref, name, value)
    {
      heap := heap[ref := heap[ref].(attrs := heap[ref].attrs[name := value])];
    }

    // ----- realising a name ------------------------------------------------------------------------

    method BindNames(self: Ref, names: seq<string>)
      requires self < |heap|
      modifies this`heap
      ensures Snap() == BindAll(old(Snap()), self, names)
    {
      for i := 0 to |names|
        invariant self < |heap| && |heap| == old(|heap|)
        invariant BindAll(old(Snap()), self, names) == BindAll(Snap(), self, names[i..])
      {
        SetAttribute(self, names[i], Plain);
        assert names[i..][1..] == names[i + 1..];
      }
    }

    method DeclareMembers(self: Ref, members: seq<Member>) returns (r: Option<Error>)
      requires self < |heap|
      modifies this`heap
      ensures (Snap(), r) == Declare(old(Snap()), self, members) && |heap| == old(|heap|)
    {
      for i := 0 to |members|
        invariant self < |heap| && |heap| == old(|heap|)
        invariant Declare(old(Snap()), self, members) == Declare(Snap(), self, members[i..])
      {
        assert members[i..][1..] == members[i + 1..];
        match members[i] {
          case Failing(_, error) => return Some(error);
          case Lazy(_) =>
          case Value(name) => SetAttribute(self, name, Plain);
        }
      }
      return None;
    }

    // A failed module is removed from the table, whatever it managed to do.
    method SettleModule(d: Name, ref: Ref, failed: Option<Error>) returns (r: Result<Ref, Error>)
      modifies this`realised
      ensures (Snap(), r) == Settle(old(Snap()), d, failed, ref)
    {
      match failed {
        case None => return Ok(ref);
        case Some(error) =>
          RemoveCached(d);
          return Err(error);
      }
    }

    method Enter(d: Name, kind: Kind, package: string) returns (self: Ref)
      modifies this
      ensures self == old(|heap|) && Snap() == Begin(old(Snap()), d, kind, package)
    {
      attempts := attempts + multiset{d};
      self := NewModule(d, kind, package);
      CacheModule(d, self);
    }

    method RealiseHostModule(d: Name) returns (r: Result<Ref, Error>)
      requires Valid() && d in bindings.specs && d !in realised
      modifies this
      ensures (Snap(), r) == RealiseHost(bindings, old(Snap()), d)
    {
      var members := bindings.specs[d];
      var self := Enter(d, Host, "");
      var failed := DeclareMembers(self, members);
      if failed.None? {
        var lazy := LazyNames(members);
        if lazy != [] {
          BindNames(self, lazy + ["__getattr__"]);
        }
      }
      r := SettleModule(d, self, failed);
    }

    method RealiseNativeModule(d: Name) returns (r: Result<Ref, Error>)
      requires Valid() && d in bindings.natives && d !in bindings.specs && d !in realised
      modifies this
      ensures (Snap(), r) == RealiseNative(bindings, old(Snap()), d)
    {
      match bindings.natives[d] {
        case None =>
          var self := Enter(d, Native, "");
          return Ok(self);
        case Some(error) =>
          attempts := attempts + multiset{d};
          return Err(error);
      }
    }

    // The loop of `realised_parents`: every proper prefix must be realised already.
    method FindParents(d: Name) returns (found: bool)
      ensures found <==> ParentsRealised(Snap(), d)
    {
      var prefixes := Prefixes(d);
      for k := 0 to |prefixes| - 1
        invariant forall j :: 0 <= j < k ==> prefixes[j] in realised
      {
        if prefixes[k] !in realised {
          return false;
        }
      }
      return true;
    }

    method RealiseExtensionModule(d: Name) returns (r: Result<Ref, Error>)
      requires Valid() && d in bindings.Names() && bindings.Preferred(d) == Extension && d !in realised
      modifies this
      ensures (Snap(), r) == RealiseExtension(bindings, old(Snap()), d)
    {
      var found := FindParents(d);
      if !found {
        attempts, faulted := attempts + multiset{d}, true;
        return Err(ImportError(d, ParentMissing));
      }
      match bindings.extensions[d] {
        case None =>
          var self := Enter(d, Extension, "");
          return Ok(self);
        case Some(error) =>
          attempts := attempts + multiset{d};
          return Err(error);
      }
    }

    // The module is in the table before its code runs, so a cyclic import finds it there.
    method RealiseBundleModule(d: Name) returns (r: Result<Ref, Error>)
      requires Valid() && d !in realised
      requires d in bindings.sources && bindings.Preferred(d) == BundleSource
      modifies this
      ensures (Snap(), r) == RealiseBundle(bindings, old(Snap()), d) && Valid()
      decreases Unrealised(bindings, Snap()), 0, 0
    {
      var bundle := bindings.sources[d];
      if d !in bundle.modules {
        attempts, faulted := attempts + multiset{d}, true;
        return Err(ImportError(d, SourceMissing));
      }
      if bundle.id !in bindings.prepared {
        attempts, faulted := attempts + multiset{d}, true;
        return Err(Unexpected);
      }
      var source := bundle.modules[d];
      BeginBundleFrame(bindings, Snap(), d, source);
      var self := Enter(d, BundleSource, Package(d, source));
      if source.isPackage {
        SetAttribute(self, "__path__", Plain);
      }
      var completed := false;
      if source.compiles {
        completed := ExecCode(self, source.body);
      }
      r := SettleModule(d, self, if completed then None else Some(GuestError));
    }

    method RealiseModule(d: Name) returns (r: Result<Ref, Error>)
      requires Valid()
      modifies this
      ensures (Snap(), r) == Realise(bindings, old(Snap()), d) && Valid()
      decreases Unrealised(bindings, Snap()), 0, 1
    {
      if d in realised {
        return Ok(realised[d]);
      }
      if d in bindings.specs {
        r := RealiseHostModule(d);
      } else if d in bindings.natives {
        r := RealiseNativeModule(d);
      } else if d in bindings.sources {
        r := RealiseBundleModule(d);
      } else if d in bindings.extensions {
        r := RealiseExtensionModule(d);
      } else {
        return Err(ImportError(d, NotFound));
      }
    }

    method ImportPrefixModule(d: Name) returns (r: Result<Ref, Error>)
      requires Valid()
      modifies this
      ensures (Snap(), r) == ImportPrefix(bindings, old(Snap()), d) && Valid()
      decreases Unrealised(bindings, Snap()), 1, 0
    {
      r := RealiseModule(d);
      if r.Err? {
        return;
      }
      match Parent(d) {
        case None =>
        case Some(pair) =>
          if pair.0 !in realised {
            faulted := true;
            return Err(ImportError(d, ParentMissing));
          }
          SetAttribute(realised[pair.0], pair.1, Module(r.value));
          bound := bound + {(realised[pair.0], d)};
      }
    }

    method ModuleOf(d: Name) returns (r: Result<Ref, Error>)
      requires Valid()
      modifies this
      ensures (Snap(), r) == ImportModule(bindings, old(Snap()), d) && Valid()
      decreases Unrealised(bindings, Snap()), 2
    {
      hide HeapGrows, SameAttempts, Linked, KeepsLinks, LinksNew, NewPreferred, Inv, Bindings.Names, Chain;
      var prefixes := Prefixes(d);
      r := Err(ImportError(d, EmptyName));
      var i := 0;
      while i < |prefixes|
        invariant 0 <= i <= |prefixes| && Valid()
        invariant SameCache(old(Snap()), Snap())
        invariant i < |prefixes| ==>
                    ImportFrom(bindings, old(Snap()), d, 0) == ImportFrom(bindings, Snap(), d, i)
        invariant i == |prefixes| ==> (Snap(), r) == ImportFrom(bindings, old(Snap()), d, 0)
      {
        r := ImportPrefixModule(prefixes[i]);
        if r.Err? {
          return;
        }
        i := i + 1;
      }
    }

    // ----- `__import__` -------------------------------------------------------------------------------

    method ExpandNames(ref: Ref, dotted: Name, wanted: seq<string>) returns (r: Option<Error>)
      requires Valid()
      requires dotted in realised && realised[dotted] == ref && Chain(Snap(), dotted, 0)
      modifies this
      ensures (Snap(), r) == Expand(bindings, old(Snap()), ref, dotted, wanted) && Valid()
      decreases Unrealised(bindings, Snap()), 3
    {
      for i := 0 to |wanted|
        invariant Valid() && SameCache(old(Snap()), Snap())
        invariant dotted in realised && realised[dotted] == ref && Chain(Snap(), dotted, 0)
        invariant Expand(bindings, old(Snap()), ref, dotted, wanted) ==
                  Expand(bindings, Snap(), ref, dotted, wanted[i..])
      {
        assert wanted[i..][1..] == wanted[i + 1..];
        if wanted[i] !in heap[ref].attrs {
          ghost var before := Snap();
          var found := ModuleOf(dotted + "." + wanted[i]);
          ChainKept(bindings, before, Snap(), dotted);
          if found.Err? && !found.error.ImportError? {
            return Some(found.error);
          }
        }
      }
      return None;
    }

    method ResolveName(package: string, name: string, level: nat) returns (r: Target)
      ensures r == Resolve(bindings, Snap(), package, name, level)
    {
      var d := name;
      if level > 0 {
        if package == "" {
          return Delegated;
        }
        var absolute := Absolutise(package, name, level);
        if absolute.Err? {
          return Refused(ImportError(name, if absolute.error.NoParentPackage? then NoParent else BeyondTop));
        }
        d := absolute.value;
      }
      if IsDenied(d, bindings.denied) {
        return Refused(ImportError(d, Denied));
      }
      return if Head(d) in bindings.Names() || Head(d) in realised then Resolved(d) else Delegated;
    }

    method AnswerImport(d: Name, fromlist: seq<string>) returns (r: Result<Value, Error>)
      requires Valid() && Chain(Snap(), d, 0) && d in realised
      modifies this
      ensures (Snap(), r) == Answer(bindings, old(Snap()), d, fromlist) && Valid()
      decreases Unrealised(bindings, Snap()), 4, 0
    {
      if fromlist == [] {
        if Head(d) !in realised {
          faulted := true;
          return Err(ImportError(d, HeadMissing));
        }
        return Ok(Module(realised[Head(d)]));
      }
      var ref := realised[d];
      var failed := ExpandNames(ref, d, WantedNames(ref, fromlist));
      return if failed.Some? then Err(failed.value) else Ok(Module(ref));
    }

    method ServeModule(d: Name, fromlist: seq<string>) returns (r: Result<Value, Error>)
      requires Valid()
      modifies this
      ensures (Snap(), r) == Serve(bindings, old(Snap()), d, fromlist) && Valid()
      decreases Unrealised(bindings, Snap()), 4, 1
    {
      hide HeapGrows, SameAttempts, Linked, KeepsLinks, LinksNew, NewPreferred, Inv, Bindings.Names;
      hide ImportFrom, Expanded, Chain, Served;
      ghost var before := Snap();
      var found := ModuleOf(d);
      ghost var after := Snap();
      assert (after, found) == ImportModule(bindings, before, d);
      if found.Err? {
        r := Err(found.error);
        assert (Snap(), r) == Serve(bindings, before, d, fromlist);
      } else {
        r := AnswerImport(d, fromlist);
        assert (Snap(), r) == Answer(bindings, after, d, fromlist);
      }
    }

    method DispatchImport(package: string, name: string, level: nat, fromlist: seq<string>)
      returns (r: Result<Value, Error>)
      requires Valid()
      modifies this
      ensures (Snap(), r) == Dispatch(bindings, old(Snap()), package, name, level, fromlist) && Valid()
      decreases Unrealised(bindings, Snap()), 4, 2
    {
      var target := ResolveName(package, name, level);
      match target {
        case Refused(error) => return Err(error);
        case Delegated => return Delegate(bindings, name, level);
        case Resolved(d) => r := ServeModule(d, fromlist);
      }
    }

    function WantedNames(ref: Ref, names: seq<string>): (r: seq<string>)
      requires ref < |heap|
      reads this
      ensures r == Wanted(Snap(), ref, names)
    {
      if names == [] then []
      else
        (if names[0] != "*" then [names[0]]
         else if "__all__" in heap[ref].attrs then NotStar(heap[ref].exports)
         else [])
        + WantedNames(ref, names[1..])
    }

    // ----- guest code -----------------------------------------------------------------------------------

    method BindFromModule(self: Ref, value: Value, names: seq<string>) returns (completed: bool)
      requires self < |heap| && (value.Module? ==> value.ref < |heap|)
      modifies this`heap
      ensures (Snap(), completed) == BindFrom(old(Snap()), self, value, names)
    {
      for i := 0 to |names|
        invariant |heap| == old(|heap|)
        invariant BindFrom(old(Snap()), self, value, names) == BindFrom(Snap(), self, value, names[i..])
      {
        assert names[i..][1..] == names[i + 1..];
        if value.Plain? {
          SetAttribute(self, names[i], Plain);
        } else if names[i] !in heap[value.ref].attrs {
          return false;
        } else {
          SetAttribute(self, names[i], heap[value.ref].attrs[names[i]]);
        }
      }
      return true;
    }

    method ExecCode(self: Ref, stmts: seq<Stmt>) returns (completed: bool)
      requires Valid() && self < |heap|
      modifies this
      ensures (Snap(), completed) == Exec(bindings, old(Snap()), self, stmts) && Valid()
      decreases Unrealised(bindings, Snap()), 6, stmts
    {
      if stmts == [] {
        return true;
      }
      completed := ExecOne(self, stmts[0]);
      if completed {
        completed := ExecCode(self, stmts[1..]);
      }
    }

    method ExecOne(self: Ref, stmt: Stmt) returns (completed: bool)
      requires Valid() && self < |heap|
      modifies this
      ensures (Snap(), completed) == ExecStmt(bindings, old(Snap()), self, stmt) && Valid()
      decreases Unrealised(bindings, Snap()), 6, stmt
    {
      hide SameAttempts, Linked, KeepsLinks, LinksNew, Bindings.Valid;
      match stmt {
        case Raise => return false;
        case Bind(name) =>
          SetAttribute(self, name, Plain);
          return true;
        case Export(names) =>
          SetAttribute(self, "__all__", Plain);
          heap := heap[self := heap[self].(exports := names)];
          return true;
        case Try(body, handler) =>
          completed := ExecCode(self, body);
          if !completed {
            completed := ExecCode(self, handler);
          }
        case Import(name, level, fromlist) =>
          completed := ExecImport(self, name, level, fromlist);
      }
    }

    method ExecImport(self: Ref, name: string, level: nat, fromlist: seq<string>)
      returns (completed: bool)
      requires Valid() && self < |heap|
      modifies this
      ensures (Snap(), completed) ==
              ExecStmt(bindings, old(Snap()), self, Import(name, level, fromlist)) && Valid()
      decreases Unrealised(bindings, Snap()), 5
    {
      var result := DispatchImport(heap[self].package, name, level, fromlist);
      if result.Err? {
        return false;
      }
      var value := result.value;
      if fromlist == [] {
        SetAttribute(self, Head(name), value);
        return true;
      }
      var names := if value.Module? then WantedNames(value.ref, fromlist) else NotStar(fromlist);
      completed := BindFromModule(self, value, names);
    }

    // ----- calls from the host --------------------------------------------------------------------------

    method MakeCall(call: Call)
      requires Valid()
      modifies this
      ensures Snap() == Step(bindings, old(Snap()), call) && Valid()
    {
      match call {
        case RunMain(stmts) =>
          var completed := ExecCode(MAIN, stmts);
        case HostImport(name) =>
          var target := ResolveName("", name, 0);
          if target.Resolved? {
            var r := ModuleOf(name);
          }
      }
    }

    // Any number of calls from a new guest leaves a table that only grew, and with well-formed
    // bindings no internal error of the importer was reached.
    method MakeCalls(calls: seq<Call>)
      requires Valid()
      modifies this
      ensures Snap() == Run(bindings, old(Snap()), calls) && Valid()
      ensures SameCache(old(Snap()), Snap()) && (bindings.Valid() ==> faulted == old(faulted))
    {
      hide HeapGrows, Linked, KeepsLinks, LinksNew, Step;
      for i := 0 to |calls|
        invariant Valid() && Run(bindings, Snap(), calls[i..]) == Run(bindings, old(Snap()), calls)
      {
        assert calls[i..][1..] == calls[i + 1..];
        MakeCall(calls[i]);
      }
      assert calls[|calls|..] == [];
    }
  }
}
