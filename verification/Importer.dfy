/**
 The meaning of guest imports.  A guest owns a cache from dotted names to module objects;
 importing a name realises its prefixes shortest first, and realising a bundle module runs
 guest code that may import again.  Every function here is total on reachable states, and its
 contract says what an import may change however deeply imports nest and however they fail.
 */
module Importer {
  import opened Wrappers
  import opened Names

  type Name = string
  type Ref = nat

  // ----- guest programs and what a guest is bound to ---------------------------------------

  datatype Stmt =
    | Import(name: string, level: nat, fromlist: seq<string>)
    | Bind(name: string)
    | Export(names: seq<string>)
    | Raise
    | Try(body: seq<Stmt>, handler: seq<Stmt>)

  datatype Reason =
    | NotFound | Denied | NoParent | BeyondTop | LoaderRefused
    | ParentMissing | HeadMissing | EmptyName | SourceMissing

  datatype Error = ImportError(name: Name, reason: Reason) | GuestError | Unexpected

  datatype Member = Value(name: string) | Failing(name: string, error: Error) | Lazy(name: string)

  datatype Source = Source(body: seq<Stmt>, compiles: bool, isPackage: bool)

  datatype Bundle = Bundle(id: nat, modules: map<Name, Source>)

  // `natives` and `extensions` carry the outcome of their loader; `foreign` holds the imports the
  // ambient interpreter can satisfy.
  datatype Bindings = Bindings(
    specs: map<Name, seq<Member>>,
    natives: map<Name, Option<Error>>,
    sources: map<Name, Bundle>,
    prepared: set<nat>,
    extensions: map<Name, Option<Error>>,
    denied: set<Name>,
    foreign: set<(string, nat)>)
  {
    ghost predicate Valid() {
      forall d :: d in sources ==> d in sources[d].modules && sources[d].id in prepared
    }

    function Names(): set<Name> {
      specs.Keys + natives.Keys + sources.Keys + extensions.Keys
    }

    // Host spec, then native, then bundle source, then native extension.
    function Preferred(d: Name): Kind
      requires d in Names()
    {
      if d in specs then Host
      else if d in natives then Native
      else if d in sources then BundleSource
      else Extension
    }
  }

  // ----- guest state --------------------------------------------------------------------------

  datatype Kind = Host | Native | BundleSource | Extension | Main

  datatype Value = Module(ref: Ref) | Plain

  datatype Object = Object(
    name: Name, kind: Kind, package: string, attrs: map<string, Value>, exports: seq<string>)

  // `attempts` counts realisations per name, `faulted` records that one of the importer's
  // internal-error branches was taken, and `bound` which submodules it has bound in which objects.
  datatype State = State(
    realised: map<Name, Ref>, heap: seq<Object>, attempts: multiset<Name>, faulted: bool,
    bound: set<(Ref, Name)>)

  // A module comes from the preferred source, or from an extension that a bundle mounted later shadows.
  predicate Fits(b: Bindings, d: Name, kind: Kind) {
    && d in b.Names()
    && (kind == b.Preferred(d) || (kind == Extension && d in b.extensions && b.Preferred(d) == BundleSource))
  }

  ghost predicate Inv(b: Bindings, st: State) {
    forall d :: d in st.realised ==>
      && st.realised[d] < |st.heap|
      && st.heap[st.realised[d]].name == d
      && Fits(b, d, st.heap[st.realised[d]].kind)
  }

  function HasAttr(st: State, ref: Ref, name: string): bool
    requires ref < |st.heap|
  {
    name in st.heap[ref].attrs
  }

  function SetAttr(st: State, ref: Ref, name: string, value: Value): State
    requires ref < |st.heap|
  {
    var obj := st.heap[ref];
    st.(heap := st.heap[ref := obj.(attrs := obj.attrs[name := value])])
  }

  // What the importer puts into a module before anything else does.
  function Seeds(kind: Kind): map<string, Value> {
    match kind
    case Host =>
      map["__name__" := Plain, "__doc__" := Plain, "__builtins__" := Plain,
          "__package__" := Plain, "__loader__" := Plain, "__spec__" := Plain]
    case BundleSource =>
      map["__name__" := Plain, "__builtins__" := Plain, "__file__" := Plain,
          "__package__" := Plain, "__loader__" := Plain, "__spec__" := Plain]
    case _ => map[]
  }

  function Alloc(st: State, d: Name, kind: Kind, package: string): State {
    st.(heap := st.heap + [Object(d, kind, package, Seeds(kind), [])])
  }

  function Cache(st: State, d: Name, ref: Ref): State {
    st.(realised := st.realised[d := ref])
  }

  function Uncache(st: State, d: Name): State {
    st.(realised := st.realised - {d})
  }

  function Attempt(st: State, d: Name): State {
    st.(attempts := st.attempts + multiset{d})
  }

  function Fault(st: State): State {
    st.(faulted := true)
  }

  // ----- the frame of an import ------------------------------------------------------------------

  // The submodule is an attribute of its parent.
  ghost predicate Attached(st: State, d: Name) {
    && Parent(d).Some?
    && d in st.realised
    && Parent(d).value.0 in st.realised
    && st.realised[Parent(d).value.0] < |st.heap|
    && var attrs := st.heap[st.realised[Parent(d).value.0]].attrs;
      Parent(d).value.1 in attrs && attrs[Parent(d).value.1] == Module(st.realised[d])
  }

  // Section 5.4.2 of the Python Language Reference: the importer bound the submodule in its parent's
  // namespace, and it is there.
  ghost predicate Linked(st: State, d: Name) {
    Attached(st, d) && (st.realised[Parent(d).value.0], d) in st.bound
  }

  ghost predicate SameCache(st: State, st': State) {
    forall d :: d in st.realised ==> d in st'.realised && st'.realised[d] == st.realised[d]
  }

  ghost predicate SameAttempts(st: State, st': State) {
    forall d :: d in st.realised ==> st'.attempts[d] == st.attempts[d]
  }

  ghost predicate HeapGrows(st: State, st': State) {
    && |st.heap| <= |st'.heap|
    && forall r :: 0 <= r < |st.heap| ==>
         && st'.heap[r].name == st.heap[r].name
         && st'.heap[r].kind == st.heap[r].kind
         && st'.heap[r].package == st.heap[r].package
         && st.heap[r].attrs.Keys <= st'.heap[r].attrs.Keys
  }

  // The object bound to the parent of `d` is one whose own code may be running.
  ghost predicate ParentIn(st: State, d: Name, running: set<Ref>) {
    && Parent(d).Some?
    && Parent(d).value.0 in st.realised
    && st.realised[Parent(d).value.0] in running
  }

  ghost predicate KeepsLinks(st: State, st': State, running: set<Ref>) {
    forall d :: Linked(st, d) && !ParentIn(st, d, running) ==> Linked(st', d)
  }

  // A submodule that appears during the call is bound in its parent, when the parent was there.
  ghost predicate LinksNew(st: State, st': State, running: set<Ref>, pending: set<Name>) {
    forall d :: d in st'.realised && d !in st.realised && d !in pending &&
      Parent(d).Some? && Parent(d).value.0 in st.realised && !ParentIn(st, d, running)
      ==> Linked(st', d)
  }

  // What is realised during the call comes from the preferred source.
  ghost predicate NewPreferred(b: Bindings, st: State, st': State) {
    forall d :: d in st'.realised && d !in st.realised ==>
      d in b.Names() && st'.realised[d] < |st'.heap| && st'.heap[st'.realised[d]].kind == b.Preferred(d)
  }

  // The names that can still be realised: the measure on which cyclic imports terminate.
  ghost function Unrealised(b: Bindings, st: State): set<Name> {
    b.Names() - st.realised.Keys
  }

  // What every import keeps: `running` are the objects whose own body may rebind their attributes
  // and `pending` the names cached but not yet bound in their parent.
  ghost predicate Frame(b: Bindings, st: State, st': State, running: set<Ref>, pending: set<Name>) {
    && Inv(b, st')
    && SameCache(st, st')
    && SameAttempts(st, st')
    && HeapGrows(st, st')
    && KeepsLinks(st, st', running)
    && LinksNew(st, st', running, pending)
    && NewPreferred(b, st, st')
  }

  lemma {:induction false} FrameRefl(b: Bindings, st: State, running: set<Ref>, pending: set<Name>)
    requires Inv(b, st)
    ensures Frame(b, st, st, running, pending)
  {
  }

  lemma {:induction false} FrameTrans(
    b: Bindings, s0: State, s1: State, s2: State, running: set<Ref>, pending: set<Name>)
    requires Inv(b, s0)
    requires Frame(b, s0, s1, running, pending) && Frame(b, s1, s2, running, pending)
    ensures Frame(b, s0, s2, running, pending)
  {
    forall d | Linked(s0, d) && !ParentIn(s0, d, running)
      ensures Linked(s2, d)
    {
      assert Linked(s1, d) && !ParentIn(s1, d, running);
    }
    forall d | d in s2.realised && d !in s0.realised && d !in pending &&
      Parent(d).Some? && Parent(d).value.0 in s0.realised && !ParentIn(s0, d, running)
      ensures Linked(s2, d)
    {
      assert !ParentIn(s1, d, running);
      if d in s1.realised {
        assert Linked(s1, d);
      }
    }
  }

  lemma {:induction false} FrameWeaken(b: Bindings, st: State, st': State, running: set<Ref>, pending: set<Name>)
    requires Inv(b, st)
    requires Frame(b, st, st', {}, {})
    ensures Frame(b, st, st', running, pending)
  {
    forall d | Linked(st, d) && !ParentIn(st, d, running)
      ensures Linked(st', d)
    {
      assert !ParentIn(st, d, {});
    }
    forall d | d in st'.realised && d !in st.realised && d !in pending &&
      Parent(d).Some? && Parent(d).value.0 in st.realised && !ParentIn(st, d, running)
      ensures Linked(st', d)
    {
      assert !ParentIn(st, d, {});
    }
  }

  // Running code may rebind its own attributes.
  lemma {:induction false} SelfAttrFrame(b: Bindings, st: State, self: Ref, name: string, value: Value)
    requires Inv(b, st) && self < |st.heap|
    ensures Frame(b, st, SetAttr(st, self, name, value), {self}, {})
  {
    var st' := SetAttr(st, self, name, value);
    forall d | Linked(st, d) && !ParentIn(st, d, {self})
      ensures Linked(st', d)
    {
    }
  }

  function BindChild(st: State, d: Name, ref: Ref): State
    requires Parent(d).Some? && Parent(d).value.0 in st.realised
    requires st.realised[Parent(d).value.0] < |st.heap|
  {
    var (parent, last) := Parent(d).value;
    SetAttr(st, st.realised[parent], last, Module(ref)).(bound := st.bound + {(st.realised[parent], d)})
  }

  // Binding a realised child in its realised parent keeps every other link.
  lemma {:induction false} LinkFrame(b: Bindings, st: State, d: Name)
    requires Inv(b, st)
    requires Parent(d).Some? && d in st.realised && Parent(d).value.0 in st.realised
    ensures var st' := BindChild(st, d, st.realised[d]);
            Frame(b, st, st', {}, {}) && Linked(st', d) && st'.faulted == st.faulted
  {
    var (parent, last) := Parent(d).value;
    var st' := BindChild(st, d, st.realised[d]);
    forall e | Linked(st, e)
      ensures Linked(st', e)
    {
      var (p, l) := Parent(e).value;
      if st.realised[p] == st.realised[parent] && l == last {
        assert p == parent;
        assert e == p + "." + l == d;
      }
    }
  }

  // ----- realising one name ------------------------------------------------------------------------

  ghost predicate ParentsRealised(st: State, d: Name) {
    forall k :: 0 <= k < |Prefixes(d)| - 1 ==> Prefixes(d)[k] in st.realised
  }

  predicate HasParents(st: State, d: Name)
    ensures HasParents(st, d) <==> ParentsRealised(st, d)
  {
    forall k :: 0 <= k < |Prefixes(d)| - 1 ==> Prefixes(d)[k] in st.realised
  }

  // Allocating a module object for `d` and caching it, before any of its code runs.
  function Begin(st: State, d: Name, kind: Kind, package: string): State {
    Cache(Attempt(Alloc(st, d, kind, package), d), d, |st.heap|)
  }

  // What `realise` guarantees about an uncached bound name.
  ghost predicate Transaction(b: Bindings, st: State, d: Name, st': State, r: Result<Ref, Error>) {
    && Frame(b, st, st', {}, {d})
    && st'.attempts[d] == st.attempts[d] + 1
    && (r.Ok? ==> d in st'.realised && st'.realised[d] == r.value && r.value >= |st.heap|)
    && (r.Err? ==> d !in st'.realised)
  }

  lemma {:induction false} BeginInv(b: Bindings, st: State, d: Name, kind: Kind, package: string)
    requires Inv(b, st) && d in b.Names() && d !in st.realised && kind == b.Preferred(d)
    ensures Inv(b, Begin(st, d, kind, package))
  {
  }

  lemma {:induction false} BodyLinks(b: Bindings, st: State, d: Name, kind: Kind, package: string, done: State)
    requires Inv(b, st) && d in b.Names() && d !in st.realised && kind == b.Preferred(d)
    requires KeepsLinks(Begin(st, d, kind, package), done, {|st.heap|})
    requires LinksNew(Begin(st, d, kind, package), done, {|st.heap|}, {})
    ensures KeepsLinks(st, done, {}) && LinksNew(st, done, {}, {d})
  {
    var begun := Begin(st, d, kind, package);
    forall e | Linked(st, e)
      ensures Linked(done, e)
    {
      assert Linked(begun, e) && !ParentIn(begun, e, {|st.heap|});
    }
    forall e | e in done.realised && e !in st.realised && e != d &&
      Parent(e).Some? && Parent(e).value.0 in st.realised
      ensures Linked(done, e)
    {
      assert !ParentIn(begun, e, {|st.heap|});
    }
  }

  lemma {:induction false} BodyPreferred(b: Bindings, st: State, d: Name, kind: Kind, package: string, done: State)
    requires Inv(b, st) && d in b.Names() && d !in st.realised && kind == b.Preferred(d)
    requires Frame(b, Begin(st, d, kind, package), done, {|st.heap|}, {})
    ensures NewPreferred(b, st, done)
  {
    var begun := Begin(st, d, kind, package);
    assert begun.realised == st.realised[d := |st.heap|] && begun.heap[|st.heap|].kind == kind;
    hide Linked, KeepsLinks, LinksNew, SameAttempts, Begin, Inv;
    assert done.realised[d] == |st.heap| && done.heap[|st.heap|].kind == kind;
  }

  // The code of a new module ran on top of its own cache entry; nothing older moved.
  lemma {:induction false} CommitFrame(b: Bindings, st: State, d: Name, kind: Kind, package: string, done: State)
    requires Inv(b, st) && d in b.Names() && d !in st.realised && kind == b.Preferred(d)
    requires Frame(b, Begin(st, d, kind, package), done, {|st.heap|}, {})
    ensures Transaction(b, st, d, done, Ok(|st.heap|))
  {
    BodyLinks(b, st, d, kind, package, done);
    BodyPreferred(b, st, d, kind, package, done);
    BeginKeeps(st, d, kind, package);
    hide Linked, KeepsLinks, LinksNew, NewPreferred, Inv, Begin;
  }

  lemma {:induction false} BeginKeeps(st: State, d: Name, kind: Kind, package: string)
    requires d !in st.realised
    ensures var begun := Begin(st, d, kind, package);
            && SameCache(st, begun) && SameAttempts(st, begun) && HeapGrows(st, begun)
            && d in begun.realised && begun.realised[d] == |st.heap| && begun.attempts[d] == st.attempts[d] + 1
  {
    hide Seeds;
  }

  lemma {:induction false} AbortLinks(st: State, d: Name, done: State)
    requires d !in st.realised && SameCache(st, done) && KeepsLinks(st, done, {}) && LinksNew(st, done, {}, {d})
    ensures KeepsLinks(st, Uncache(done, d), {}) && LinksNew(st, Uncache(done, d), {}, {d})
  {
    var undone := Uncache(done, d);
    forall e | Linked(st, e)
      ensures Linked(undone, e)
    {
      assert !ParentIn(st, e, {});
      assert Linked(done, e);
    }
    forall e | e in undone.realised && e !in st.realised && e != d &&
      Parent(e).Some? && Parent(e).value.0 in st.realised
      ensures Linked(undone, e)
    {
      assert !ParentIn(st, e, {});
      assert Linked(done, e);
    }
  }

  // A failed module is taken out again, and only that module.
  lemma {:induction false} AbortFrame(b: Bindings, st: State, d: Name, done: State, ref: Ref, error: Error)
    requires Inv(b, st) && d !in st.realised
    requires Transaction(b, st, d, done, Ok(ref))
    ensures Transaction(b, st, d, Uncache(done, d), Err(error))
  {
    AbortLinks(st, d, done);
    hide KeepsLinks, LinksNew, Linked;
  }

  // A module that runs no guest code.
  lemma {:induction false} AtomicFrame(b: Bindings, st: State, d: Name, kind: Kind)
    requires Inv(b, st) && d in b.Names() && d !in st.realised && kind == b.Preferred(d)
    ensures Transaction(b, st, d, Begin(st, d, kind, ""), Ok(|st.heap|))
  {
    BeginInv(b, st, d, kind, "");
    FrameRefl(b, Begin(st, d, kind, ""), {|st.heap|}, {});
    CommitFrame(b, st, d, kind, "", Begin(st, d, kind, ""));
  }

  // A module that failed before any code ran.
  lemma {:induction false} FailureFrame(b: Bindings, st: State, d: Name, error: Error)
    requires Inv(b, st) && d !in st.realised
    ensures Transaction(b, st, d, Attempt(st, d), Err(error))
    ensures Transaction(b, st, d, Fault(Attempt(st, d)), Err(error))
  {
    forall e | Linked(st, e)
      ensures Linked(Attempt(st, d), e) && Linked(Fault(Attempt(st, d)), e)
    {
    }
  }

  // Members are set in order; lazy ones become reachable through `__getattr__` at the end.
  function Declare(st: State, self: Ref, members: seq<Member>): (State, Option<Error>)
    requires self < |st.heap|
    decreases |members|
  {
    if members == [] then (st, None)
    else match members[0]
      case Failing(_, error) => (st, Some(error))
      case Lazy(_) => Declare(st, self, members[1..])
      case Value(name) => Declare(SetAttr(st, self, name, Plain), self, members[1..])
  }

  function LazyNames(members: seq<Member>): seq<string> {
    if members == [] then []
    else (if members[0].Lazy? then [members[0].name] else []) + LazyNames(members[1..])
  }

  function BindAll(st: State, self: Ref, names: seq<string>): State
    requires self < |st.heap|
    decreases |names|
  {
    if names == [] then st else BindAll(SetAttr(st, self, names[0], Plain), self, names[1..])
  }

  function BindLazy(st: State, self: Ref, members: seq<Member>): State
    requires self < |st.heap|
  {
    var lazy := LazyNames(members);
    if lazy == [] then st else BindAll(st, self, lazy + ["__getattr__"])
  }

  lemma {:induction false} BindAllFrame(b: Bindings, st: State, self: Ref, names: seq<string>)
    requires Inv(b, st) && self < |st.heap|
    ensures Frame(b, st, BindAll(st, self, names), {self}, {})
    ensures BindAll(st, self, names).faulted == st.faulted
    decreases |names|
  {
    if names == [] {
      FrameRefl(b, st, {self}, {});
    } else {
      var st1 := SetAttr(st, self, names[0], Plain);
      SelfAttrFrame(b, st, self, names[0], Plain);
      BindAllFrame(b, st1, self, names[1..]);
      FrameTrans(b, st, st1, BindAll(st1, self, names[1..]), {self}, {});
    }
  }

  lemma {:induction false} DeclareFrame(b: Bindings, st: State, self: Ref, members: seq<Member>)
    requires Inv(b, st) && self < |st.heap|
    ensures Frame(b, st, Declare(st, self, members).0, {self}, {})
    ensures Declare(st, self, members).0.faulted == st.faulted
    decreases |members|
  {
    if members == [] || members[0].Failing? {
      FrameRefl(b, st, {self}, {});
    } else if members[0].Lazy? {
      DeclareFrame(b, st, self, members[1..]);
    } else {
      var st1 := SetAttr(st, self, members[0].name, Plain);
      SelfAttrFrame(b, st, self, members[0].name, Plain);
      DeclareFrame(b, st1, self, members[1..]);
      FrameTrans(b, st, st1, Declare(st1, self, members[1..]).0, {self}, {});
    }
  }

  function Settle(st: State, d: Name, r: Option<Error>, ref: Ref): (State, Result<Ref, Error>) {
    match r
    case None => (st, Ok(ref))
    case Some(error) => (Uncache(st, d), Err(error))
  }

  function RealiseHost(b: Bindings, st: State, d: Name): (r: (State, Result<Ref, Error>))
    requires Inv(b, st) && d in b.specs && d !in st.realised
    ensures Transaction(b, st, d, r.0, r.1) && r.0.faulted == st.faulted
  {
    var self, members := |st.heap|, b.specs[d];
    var begun := Begin(st, d, Host, "");
    var (declared, failed) := Declare(begun, self, members);
    HostTransaction(b, st, d, members);
    if failed.Some? then Settle(declared, d, failed, self)
    else Settle(BindLazy(declared, self, members), d, None, self)
  }

  lemma {:induction false} HostTransaction(b: Bindings, st: State, d: Name, members: seq<Member>)
    requires Inv(b, st) && d in b.specs && d !in st.realised
    ensures var self, begun := |st.heap|, Begin(st, d, Host, "");
            && self < |begun.heap| && begun.faulted == st.faulted
            && var (declared, failed) := Declare(begun, self, members);
               && self < |declared.heap| && declared.faulted == st.faulted
               && BindLazy(declared, self, members).faulted == st.faulted
               && Transaction(b, st, d, BindLazy(declared, self, members), Ok(self))
               && (failed.Some? ==> Transaction(b, st, d, Uncache(declared, d), Err(failed.value)))
  {
    var self, begun := |st.heap|, Begin(st, d, Host, "");
    BeginInv(b, st, d, Host, "");
    hide Transaction;
    HostFrames(b, begun, self, members);
    hide Begin, Frame, Declare, BindLazy;
    var (declared, failed) := Declare(begun, self, members);
    CommitFrame(b, st, d, Host, "", declared);
    CommitFrame(b, st, d, Host, "", BindLazy(declared, self, members));
    if failed.Some? {
      AbortFrame(b, st, d, declared, self, failed.value);
    }
  }

  lemma {:induction false} HostFrames(b: Bindings, st: State, self: Ref, members: seq<Member>)
    requires Inv(b, st) && self < |st.heap|
    ensures var declared := Declare(st, self, members).0;
            && self < |declared.heap| && declared.faulted == st.faulted
            && BindLazy(declared, self, members).faulted == st.faulted
            && Frame(b, st, declared, {self}, {}) && Frame(b, st, BindLazy(declared, self, members), {self}, {})
  {
    DeclareFrame(b, st, self, members);
    var declared := Declare(st, self, members).0;
    assert self < |declared.heap| && Inv(b, declared);
    BindAllFrame(b, declared, self, LazyNames(members) + ["__getattr__"]);
    FrameRefl(b, declared, {self}, {});
    hide Frame, Inv, BindAll, Declare;
    FrameTrans(b, st, declared, BindLazy(declared, self, members), {self}, {});
  }

  function RealiseNative(b: Bindings, st: State, d: Name): (r: (State, Result<Ref, Error>))
    requires Inv(b, st) && d in b.natives && d !in b.specs && d !in st.realised
    ensures Transaction(b, st, d, r.0, r.1) && r.0.faulted == st.faulted
  {
    match b.natives[d]
    case None =>
      AtomicFrame(b, st, d, Native);
      (Begin(st, d, Native, ""), Ok(|st.heap|))
    case Some(error) =>
      FailureFrame(b, st, d, error);
      (Attempt(st, d), Err(error))
  }

  function RealiseExtension(b: Bindings, st: State, d: Name): (r: (State, Result<Ref, Error>))
    requires Inv(b, st) && d in b.Names() && b.Preferred(d) == Extension && d !in st.realised
    ensures Transaction(b, st, d, r.0, r.1)
    ensures ParentsRealised(st, d) ==> r.0.faulted == st.faulted
  {
    if !HasParents(st, d) then
      FailureFrame(b, st, d, ImportError(d, ParentMissing));
      (Fault(Attempt(st, d)), Err(ImportError(d, ParentMissing)))
    else
      match b.extensions[d]
      case None =>
        AtomicFrame(b, st, d, Extension);
        (Begin(st, d, Extension, ""), Ok(|st.heap|))
      case Some(error) =>
        FailureFrame(b, st, d, error);
        (Attempt(st, d), Err(error))
  }

  // ----- imports, guest code and their mutual recursion ----------------------------------------------

  function Contains(b: Bindings, st: State, d: Name): bool {
    d in b.Names() || d in st.realised
  }

  datatype Target = Delegated | Resolved(name: Name) | Refused(error: Error)

  // The name an import stands for, and whether this guest serves it.
  function Resolve(b: Bindings, st: State, package: string, name: string, level: nat): Target {
    if level > 0 && package == "" then Delegated
    else
      var absolute := if level == 0 then Ok(name) else Absolute(package, name, level);
      match absolute
      case Err(reason) =>
        Refused(ImportError(name, if reason.NoParentPackage? then NoParent else BeyondTop))
      case Ok(resolved) =>
        if IsDenied(resolved, b.denied) then Refused(ImportError(resolved, Denied))
        else if Contains(b, st, Head(resolved)) then Resolved(resolved)
        else Delegated
  }

  function Delegate(b: Bindings, name: string, level: nat): Result<Value, Error> {
    if (name, level) in b.foreign then Ok(Plain) else Err(GuestError)
  }

  function NotStar(names: seq<string>): seq<string> {
    if names == [] then []
    else (if names[0] == "*" then [] else [names[0]]) + NotStar(names[1..])
  }

  // A star stands for the names the module lists in `__all__`, if it has that attribute.
  function Wanted(st: State, ref: Ref, names: seq<string>): seq<string>
    requires ref < |st.heap|
  {
    if names == [] then []
    else
      (if names[0] != "*" then [names[0]]
       else if HasAttr(st, ref, "__all__") then NotStar(st.heap[ref].exports)
       else [])
      + Wanted(st, ref, names[1..])
  }

  // `from m import names` after the import itself: each name is read from the module.
  function BindFrom(st: State, self: Ref, value: Value, names: seq<string>): (State, bool)
    requires self < |st.heap|
    requires value.Module? ==> value.ref < |st.heap|
    decreases |names|
  {
    if names == [] then (st, true)
    else if value.Plain? then BindFrom(SetAttr(st, self, names[0], Plain), self, value, names[1..])
    else if !HasAttr(st, value.ref, names[0]) then (st, false)
    else BindFrom(SetAttr(st, self, names[0], st.heap[value.ref].attrs[names[0]]), self, value, names[1..])
  }

  function BindImport(
    st: State, self: Ref, value: Value, name: string, fromlist: seq<string>): (State, bool)
    requires self < |st.heap|
    requires value.Module? ==> value.ref < |st.heap|
  {
    if fromlist == [] then (SetAttr(st, self, Head(name), value), true)
    else BindFrom(st, self, value,
                  if value.Module? then Wanted(st, value.ref, fromlist) else NotStar(fromlist))
  }

  lemma {:induction false} BindFromFrame(b: Bindings, st: State, self: Ref, value: Value, names: seq<string>)
    requires Inv(b, st) && self < |st.heap|
    requires value.Module? ==> value.ref < |st.heap|
    ensures Frame(b, st, BindFrom(st, self, value, names).0, {self}, {})
    ensures BindFrom(st, self, value, names).0.faulted == st.faulted
    decreases |names|
  {
    if names == [] || (value.Module? && !HasAttr(st, value.ref, names[0])) {
      FrameRefl(b, st, {self}, {});
    } else {
      var v := if value.Plain? then Plain else st.heap[value.ref].attrs[names[0]];
      var st1 := SetAttr(st, self, names[0], v);
      SelfAttrFrame(b, st, self, names[0], v);
      BindFromFrame(b, st1, self, value, names[1..]);
      FrameTrans(b, st, st1, BindFrom(st1, self, value, names[1..]).0, {self}, {});
    }
  }

  lemma {:induction false} BindImportFrame(
    b: Bindings, st: State, self: Ref, value: Value, name: string, fromlist: seq<string>)
    requires Inv(b, st) && self < |st.heap|
    requires value.Module? ==> value.ref < |st.heap|
    ensures Frame(b, st, BindImport(st, self, value, name, fromlist).0, {self}, {})
    ensures BindImport(st, self, value, name, fromlist).0.faulted == st.faulted
  {
    if fromlist == [] {
      SelfAttrFrame(b, st, self, Head(name), value);
    } else {
      BindFromFrame(b, st, self, value,
                    if value.Module? then Wanted(st, value.ref, fromlist) else NotStar(fromlist));
    }
  }

  // All prefixes of `d` from `i` on are realised and bound in their parents.
  ghost predicate Chain(st: State, d: Name, i: nat) {
    forall k :: i <= k < |Prefixes(d)| ==>
      Prefixes(d)[k] in st.realised && (k > 0 ==> Linked(st, Prefixes(d)[k]))
  }

  ghost predicate PrefixesRealised(st: State, d: Name, i: nat) {
    forall k :: 0 <= k < i && k < |Prefixes(d)| ==> Prefixes(d)[k] in st.realised
  }

  // A submodule asked for by a from-list is an attribute on return whenever it is realised.
  ghost predicate Expanded(st: State, ref: Ref, dotted: Name, wanted: seq<string>) {
    && ref < |st.heap|
    && forall w :: w in wanted && '.' !in w && dotted + "." + w in st.realised
         ==> w in st.heap[ref].attrs
  }

  lemma {:induction false} ChainKept(b: Bindings, st: State, st': State, d: Name)
    requires Chain(st, d, 0) && Frame(b, st, st', {}, {})
    ensures Chain(st', d, 0)
  {
    forall k | 0 <= k < |Prefixes(d)| && k > 0
      ensures Linked(st', Prefixes(d)[k])
    {
      assert !ParentIn(st, Prefixes(d)[k], {});
    }
  }

  // One wanted submodule was there or has been tried; the rest of the list keeps it.
  lemma {:induction false} ExpandStep(b: Bindings, st: State, st': State, ref: Ref, dotted: Name, w: string)
    requires Inv(b, st) && Frame(b, st, st', {}, {})
    requires dotted in st.realised && st.realised[dotted] == ref
    requires HasAttr(st, ref, w) || dotted + "." + w !in st.realised || Linked(st, dotted + "." + w)
    requires '.' !in w && dotted + "." + w in st'.realised
    ensures ref < |st'.heap| && w in st'.heap[ref].attrs
  {
    var child := dotted + "." + w;
    ChildName(dotted, w);
    if !HasAttr(st, ref, w) {
      assert !ParentIn(st, child, {});
      assert Linked(st', child);
    }
  }

  function Exec(b: Bindings, st: State, self: Ref, stmts: seq<Stmt>): (r: (State, bool))
    requires Inv(b, st) && self < |st.heap|
    ensures Frame(b, st, r.0, {self}, {}) && (b.Valid() ==> r.0.faulted == st.faulted)
    decreases Unrealised(b, st), 6, stmts
  {
    if stmts == [] then
      FrameRefl(b, st, {self}, {});
      (st, true)
    else
      var (st1, completed) := ExecStmt(b, st, self, stmts[0]);
      if !completed then (st1, false)
      else
        var r := Exec(b, st1, self, stmts[1..]);
        FrameTrans(b, st, st1, r.0, {self}, {});
        r
  }

  function ExecStmt(b: Bindings, st: State, self: Ref, stmt: Stmt): (r: (State, bool))
    requires Inv(b, st) && self < |st.heap|
    ensures Frame(b, st, r.0, {self}, {}) && (b.Valid() ==> r.0.faulted == st.faulted)
    decreases Unrealised(b, st), 6, stmt
  {
    match stmt
    case Raise =>
      FrameRefl(b, st, {self}, {});
      (st, false)
    case Bind(name) =>
      SelfAttrFrame(b, st, self, name, Plain);
      (SetAttr(st, self, name, Plain), true)
    case Export(names) =>
      ExportFrame(b, st, self, names);
      (SetExports(st, self, names), true)
    case Try(body, handler) =>
      var (st1, completed) := Exec(b, st, self, body);
      if completed then (st1, true)
      else
        var r := Exec(b, st1, self, handler);
        FrameTrans(b, st, st1, r.0, {self}, {});
        r
    case Import(name, level, fromlist) =>
      var (st1, result) := Dispatch(b, st, st.heap[self].package, name, level, fromlist);
      FrameWeaken(b, st, st1, {self}, {});
      if result.Err? then (st1, false)
      else
        var r := BindImport(st1, self, result.value, name, fromlist);
        BindImportFrame(b, st1, self, result.value, name, fromlist);
        FrameTrans(b, st, st1, r.0, {self}, {});
        r
  }

  function SetExports(st: State, self: Ref, names: seq<string>): State
    requires self < |st.heap|
  {
    var st1 := SetAttr(st, self, "__all__", Plain);
    st1.(heap := st1.heap[self := st1.heap[self].(exports := names)])
  }

  lemma {:induction false} ExportFrame(b: Bindings, st: State, self: Ref, names: seq<string>)
    requires Inv(b, st) && self < |st.heap|
    ensures Frame(b, st, SetExports(st, self, names), {self}, {})
  {
    forall d | Linked(st, d) && !ParentIn(st, d, {self})
      ensures Linked(SetExports(st, self, names), d)
    {
    }
  }

  // `__import__` as guest code sees it.
  function Dispatch(
    b: Bindings, st: State, package: string, name: string, level: nat, fromlist: seq<string>)
    : (r: (State, Result<Value, Error>))
    requires Inv(b, st)
    ensures Frame(b, st, r.0, {}, {}) && (b.Valid() ==> r.0.faulted == st.faulted)
    ensures r.1.Ok? && r.1.value.Module? ==> r.1.value.ref < |r.0.heap|
    ensures match Resolve(b, st, package, name, level)
            case Refused(error) => r == (st, Err(error))
            case Delegated => r == (st, Delegate(b, name, level))
            case Resolved(d) => Served(r.0, d, fromlist, r.1)
    decreases Unrealised(b, st), 4, 2
  {
    FrameRefl(b, st, {}, {});
    match Resolve(b, st, package, name, level)
    case Refused(error) => (st, Err(error))
    case Delegated => (st, Delegate(b, name, level))
    case Resolved(d) => Serve(b, st, d, fromlist)
  }

  // The answer of `__import__` for a name this guest serves: the head module without a from-list,
  // the named module with one, and every prefix bound in its parent.
  ghost predicate Served(st: State, d: Name, fromlist: seq<string>, r: Result<Value, Error>) {
    r.Ok? ==>
      && Chain(st, d, 0) && d in st.realised && Head(d) in st.realised
      && r.value == Module(st.realised[if fromlist == [] then Head(d) else d])
      && Expanded(st, st.realised[d], d, NotStar(fromlist))
  }

  function Serve(b: Bindings, st: State, d: Name, fromlist: seq<string>)
    : (r: (State, Result<Value, Error>))
    requires Inv(b, st)
    ensures Frame(b, st, r.0, {}, {}) && (b.Valid() ==> r.0.faulted == st.faulted)
    ensures r.1.Ok? && r.1.value.Module? ==> r.1.value.ref < |r.0.heap|
    ensures Served(r.0, d, fromlist, r.1)
    decreases Unrealised(b, st), 4, 1
  {
    var (st1, result) := ImportModule(b, st, d);
    if result.Err? then (st1, Err(result.error))
    else
      var r := Answer(b, st1, d, fromlist);
      FrameTrans(b, st, st1, r.0, {}, {});
      r
  }

  function Answer(b: Bindings, st: State, d: Name, fromlist: seq<string>)
    : (r: (State, Result<Value, Error>))
    requires Inv(b, st) && Chain(st, d, 0) && d in st.realised
    ensures Frame(b, st, r.0, {}, {}) && (b.Valid() ==> r.0.faulted == st.faulted)
    ensures r.1.Ok? && r.1.value.Module? ==> r.1.value.ref < |r.0.heap|
    ensures Served(r.0, d, fromlist, r.1)
    decreases Unrealised(b, st), 4, 0
  {
    FrameRefl(b, st, {}, {});
    ParentOfPrefix(d, 0);
    if fromlist == [] then HeadModule(st, d)
    else
      var ref := st.realised[d];
      var (st1, failed) := Expand(b, st, ref, d, Wanted(st, ref, fromlist));
      ChainKept(b, st, st1, d);
      WantedCovers(st, ref, fromlist);
      (st1, if failed.Some? then Err(failed.value) else Ok(Module(ref)))
  }

  function HeadModule(st: State, d: Name): (State, Result<Value, Error>) {
    if Head(d) in st.realised then (st, Ok(Module(st.realised[Head(d)])))
    else (Fault(st), Err(ImportError(d, HeadMissing)))
  }

  lemma {:induction false} WantedCovers(st: State, ref: Ref, names: seq<string>)
    requires ref < |st.heap|
    ensures forall w :: w in NotStar(names) ==> w in Wanted(st, ref, names)
  {
    if names != [] {
      WantedCovers(st, ref, names[1..]);
    }
  }

  // Importing the submodules named by a from-list; a submodule that cannot be imported is skipped.
  function Expand(b: Bindings, st: State, ref: Ref, dotted: Name, wanted: seq<string>)
    : (r: (State, Option<Error>))
    requires Inv(b, st)
    requires dotted in st.realised && st.realised[dotted] == ref && Chain(st, dotted, 0)
    ensures Frame(b, st, r.0, {}, {}) && (b.Valid() ==> r.0.faulted == st.faulted)
    ensures r.1.None? ==> Expanded(r.0, ref, dotted, wanted)
    decreases Unrealised(b, st), 3, |wanted|
  {
    FrameRefl(b, st, {}, {});
    if wanted == [] then (st, None)
    else
      var w := wanted[0];
      if HasAttr(st, ref, w) then
        var r := Expand(b, st, ref, dotted, wanted[1..]);
        ExpandOne(b, st, r.0, ref, dotted, w);
        r
      else
        var (st1, result) := ImportModule(b, st, dotted + "." + w);
        if result.Err? && !result.error.ImportError? then (st1, Some(result.error))
        else
          ChainKept(b, st, st1, dotted);
          ChildTried(b, st, st1, dotted, w, result);
          var r := Expand(b, st1, ref, dotted, wanted[1..]);
          FrameTrans(b, st, st1, r.0, {}, {});
          ExpandOne(b, st1, r.0, ref, dotted, w);
          r
  }

  lemma {:induction false} ExpandOne(b: Bindings, st: State, st': State, ref: Ref, dotted: Name, w: string)
    requires Inv(b, st) && Frame(b, st, st', {}, {})
    requires dotted in st.realised && st.realised[dotted] == ref
    requires '.' !in w ==>
               HasAttr(st, ref, w) || dotted + "." + w !in st.realised || Linked(st, dotted + "." + w)
    ensures Expanded(st', ref, dotted, [w])
  {
    if '.' !in w && dotted + "." + w in st'.realised {
      ExpandStep(b, st, st', ref, dotted, w);
    }
  }

  // A submodule import either binds the submodule or leaves it unrealised.
  lemma {:induction false} ChildTried(
    b: Bindings, st: State, st1: State, dotted: Name, w: string, r: Result<Ref, Error>)
    requires Chain(st, dotted, 0) && Frame(b, st, st1, {}, {})
    requires r.Ok? ==> Chain(st1, dotted + "." + w, 0)
    requires r.Err? ==> !PrefixesRealised(st1, dotted + "." + w, |Prefixes(dotted + "." + w)|)
    ensures '.' !in w ==> dotted + "." + w !in st1.realised || Linked(st1, dotted + "." + w)
  {
    var child := dotted + "." + w;
    if '.' !in w {
      ChildName(dotted, w);
      assert Prefixes(child)[|Prefixes(dotted)|] == child;
      assert forall k :: 0 <= k < |Prefixes(dotted)| ==> Prefixes(child)[k] == Prefixes(dotted)[k];
      assert PrefixesRealised(st1, child, |Prefixes(dotted)|);
    }
  }

  function ImportModule(b: Bindings, st: State, d: Name): (r: (State, Result<Ref, Error>))
    requires Inv(b, st)
    ensures Frame(b, st, r.0, {}, {}) && (b.Valid() ==> r.0.faulted == st.faulted)
    ensures r.1.Ok? ==> Chain(r.0, d, 0) && d in r.0.realised && r.0.realised[d] == r.1.value
    ensures r.1.Err? ==> !PrefixesRealised(r.0, d, |Prefixes(d)|)
    decreases Unrealised(b, st), 2
  {
    ImportFrom(b, st, d, 0)
  }

  // The loop of `module`: realise prefix `i`, bind it in its parent, go on.
  function ImportFrom(b: Bindings, st: State, d: Name, i: nat): (r: (State, Result<Ref, Error>))
    requires Inv(b, st) && i < |Prefixes(d)|
    ensures Frame(b, st, r.0, {}, {})
    ensures b.Valid() && PrefixesRealised(st, d, i) ==> r.0.faulted == st.faulted
    ensures r.1.Ok? ==> Chain(r.0, d, i) && d in r.0.realised && r.0.realised[d] == r.1.value
    ensures r.1.Err? && PrefixesRealised(st, d, i) ==> !PrefixesRealised(r.0, d, |Prefixes(d)|)
    decreases Unrealised(b, st), 1, |Prefixes(d)| - i
  {
    var prefix := Prefixes(d)[i];
    PrefixFacts(st, d, i);
    var (st1, result) := ImportPrefix(b, st, prefix);
    if result.Err? then (st1, result)
    else
      PrefixesGrow(st, st1, d, i);
      if i + 1 == |Prefixes(d)| then
        ChainOfLast(st1, d);
        (st1, result)
      else
        var r := ImportFrom(b, st1, d, i + 1);
        ImportTurn(b, st, st1, r.0, d, i);
        r
  }

  lemma {:induction false} ChainOfLast(st: State, d: Name)
    requires d in st.realised && (Parent(d).Some? ==> Linked(st, d))
    ensures Chain(st, d, |Prefixes(d)| - 1)
  {
    ParentOfPrefix(d, |Prefixes(d)| - 1);
    hide Linked;
  }

  // One turn of the loop followed by the others.
  lemma {:induction false} ImportTurn(b: Bindings, st: State, st1: State, st2: State, d: Name, i: nat)
    requires Inv(b, st) && i < |Prefixes(d)|
    requires Frame(b, st, st1, {}, {}) && Frame(b, st1, st2, {}, {})
    requires Prefixes(d)[i] in st1.realised && (i > 0 ==> Linked(st1, Prefixes(d)[i]))
    ensures Frame(b, st, st2, {}, {})
    ensures Chain(st2, d, i + 1) ==> Chain(st2, d, i)
  {
    FrameTrans(b, st, st1, st2, {}, {});
    LinkStays(b, st1, st2, Prefixes(d)[i]);
  }

  lemma {:induction false} PrefixesGrow(st: State, st1: State, d: Name, i: nat)
    requires i < |Prefixes(d)| && SameCache(st, st1) && Prefixes(d)[i] in st1.realised
    ensures PrefixesRealised(st, d, i) ==> PrefixesRealised(st1, d, i + 1)
  {
  }

  lemma {:induction false} PrefixFacts(st: State, d: Name, i: nat)
    requires i < |Prefixes(d)|
    ensures PrefixesRealised(st, d, i) ==> ParentsRealised(st, Prefixes(d)[i])
    ensures i > 0 <==> Parent(Prefixes(d)[i]).Some?
  {
    PrefixesOfPrefix(d, i);
    ParentOfPrefix(d, i);
  }

  function ImportPrefix(b: Bindings, st: State, d: Name): (r: (State, Result<Ref, Error>))
    requires Inv(b, st)
    ensures Frame(b, st, r.0, {}, {})
    ensures b.Valid() && ParentsRealised(st, d) ==> r.0.faulted == st.faulted
    ensures r.1.Ok? ==> d in r.0.realised && r.0.realised[d] == r.1.value
    ensures r.1.Ok? && Parent(d).Some? ==> Linked(r.0, d)
    ensures r.1.Err? && ParentsRealised(st, d) ==> d !in r.0.realised
    decreases Unrealised(b, st), 1, 0
  {
    var (st1, result) := Realise(b, st, d);
    ParentIsRealised(st, d);
    if result.Err? then
      FrameSettled(b, st, st1, d);
      (st1, result)
    else
      match LinkParent(st1, d, result.value)
      case Err(st2) =>
        FrameSettled(b, st, st1, d);
        (st2, Err(ImportError(d, ParentMissing)))
      case Ok(st2) =>
        LinkStep(b, st, st1, d);
        (st2, result)
  }

  lemma {:induction false} ParentIsRealised(st: State, d: Name)
    ensures ParentsRealised(st, d) && Parent(d).Some? ==> Parent(d).value.0 in st.realised
  {
    ParentOfPrefix(d, |Prefixes(d)| - 1);
  }

  function LinkParent(st: State, d: Name, ref: Ref): Result<State, State>
    requires Parent(d).Some? && Parent(d).value.0 in st.realised ==>
               st.realised[Parent(d).value.0] < |st.heap|
  {
    match Parent(d)
    case None => Ok(st)
    case Some(pair) =>
      if pair.0 in st.realised then Ok(BindChild(st, d, ref))
      else Err(Fault(st))
  }

  // A name that is gone again, or that has no realised parent, leaves no binding to make.
  lemma {:induction false} FrameSettled(b: Bindings, st: State, st1: State, d: Name)
    requires Frame(b, st, st1, {}, {d})
    requires d !in st1.realised || Parent(d).None? || Parent(d).value.0 !in st1.realised
    ensures Frame(b, st, st1, {}, {})
  {
  }

  lemma {:induction false} LinkStays(b: Bindings, st: State, st': State, d: Name)
    requires Frame(b, st, st', {}, {})
    ensures Linked(st, d) ==> Linked(st', d)
  {
    assert !ParentIn(st, d, {});
  }

  // One turn of the loop of `module`.
  lemma {:induction false} LinkStep(b: Bindings, st: State, st1: State, d: Name)
    requires Inv(b, st) && Frame(b, st, st1, {}, {d}) && d in st1.realised
    requires LinkParent(st1, d, st1.realised[d]).Ok?
    ensures var st2 := LinkParent(st1, d, st1.realised[d]).value;
            && Frame(b, st, st2, {}, {}) && st2.faulted == st1.faulted
            && st2.realised == st1.realised
            && (Parent(d).Some? ==> Linked(st2, d))
  {
    if Parent(d).None? {
      FrameSettled(b, st, st1, d);
    } else {
      LinkFrame(b, st1, d);
      var st2 := LinkParent(st1, d, st1.realised[d]).value;
      FrameWeaken(b, st1, st2, {}, {d});
      FrameTrans(b, st, st1, st2, {}, {d});
    }
  }

  function Realise(b: Bindings, st: State, d: Name): (r: (State, Result<Ref, Error>))
    requires Inv(b, st)
    ensures d in st.realised ==> r == (st, Ok(st.realised[d]))
    ensures d !in b.Names() && d !in st.realised ==> r == (st, Err(ImportError(d, NotFound)))
    ensures d !in st.realised && d in b.Names() ==> Transaction(b, st, d, r.0, r.1)
    ensures Frame(b, st, r.0, {}, {d})
    ensures b.Valid() && ParentsRealised(st, d) ==> r.0.faulted == st.faulted
    decreases Unrealised(b, st), 0, 1
  {
    FrameRefl(b, st, {}, {d});
    if d in st.realised then (st, Ok(st.realised[d]))
    else if d in b.specs then RealiseHost(b, st, d)
    else if d in b.natives then RealiseNative(b, st, d)
    else if d in b.sources then RealiseBundle(b, st, d)
    else if d in b.extensions then RealiseExtension(b, st, d)
    else (st, Err(ImportError(d, NotFound)))
  }

  function Package(d: Name, source: Source): string {
    if source.isPackage then d
    else match Parent(d)
      case None => ""
      case Some(pair) => pair.0
  }

  // A new bundle module in the cache: a package also has a path.
  function BeginBundle(st: State, d: Name, source: Source): State {
    var begun := Begin(st, d, BundleSource, Package(d, source));
    if source.isPackage then SetAttr(begun, |st.heap|, "__path__", Plain) else begun
  }

  lemma {:induction false} BeginBundleFrame(b: Bindings, st: State, d: Name, source: Source)
    requires Inv(b, st) && d in b.Names() && d !in st.realised && b.Preferred(d) == BundleSource
    ensures Inv(b, Begin(st, d, BundleSource, Package(d, source)))
    ensures Frame(b, Begin(st, d, BundleSource, Package(d, source)), BeginBundle(st, d, source), {|st.heap|}, {})
    ensures Inv(b, BeginBundle(st, d, source)) && |st.heap| < |BeginBundle(st, d, source).heap|
    ensures BeginBundle(st, d, source).realised == st.realised[d := |st.heap|]
    ensures BeginBundle(st, d, source).faulted == st.faulted
  {
    var begun := Begin(st, d, BundleSource, Package(d, source));
    BeginInv(b, st, d, BundleSource, Package(d, source));
    FrameRefl(b, begun, {|st.heap|}, {});
    SelfAttrFrame(b, begun, |st.heap|, "__path__", Plain);
  }

  // Whether the body completed or not.
  lemma {:induction false} BundleTransaction(b: Bindings, st: State, d: Name, source: Source, done: State)
    requires Inv(b, st) && d in b.Names() && d !in st.realised && b.Preferred(d) == BundleSource
    requires done == BeginBundle(st, d, source) || Frame(b, BeginBundle(st, d, source), done, {|st.heap|}, {})
    ensures Transaction(b, st, d, done, Ok(|st.heap|))
    ensures Transaction(b, st, d, Uncache(done, d), Err(GuestError))
  {
    BeginBundleFrame(b, st, d, source);
    hide Frame, BeginBundle, Begin, Transaction;
    if done != BeginBundle(st, d, source) {
      FrameTrans(b, Begin(st, d, BundleSource, Package(d, source)), BeginBundle(st, d, source), done, {|st.heap|}, {});
    }
    CommitFrame(b, st, d, BundleSource, Package(d, source), done);
    AbortFrame(b, st, d, done, |st.heap|, GuestError);
  }

  function RealiseBundle(b: Bindings, st: State, d: Name): (r: (State, Result<Ref, Error>))
    requires Inv(b, st) && d !in st.realised
    requires d in b.sources && b.Preferred(d) == BundleSource
    ensures Transaction(b, st, d, r.0, r.1) && (b.Valid() ==> r.0.faulted == st.faulted)
    decreases Unrealised(b, st), 0, 0
  {
    var self, bundle := |st.heap|, b.sources[d];
    if d !in bundle.modules then
      FailureFrame(b, st, d, ImportError(d, SourceMissing));
      (Fault(Attempt(st, d)), Err(ImportError(d, SourceMissing)))
    else if bundle.id !in b.prepared then
      FailureFrame(b, st, d, Unexpected);
      (Fault(Attempt(st, d)), Err(Unexpected))
    else
      var source := bundle.modules[d];
      var begun := BeginBundle(st, d, source);
      BeginBundleFrame(b, st, d, source);
      var (done, completed) := if source.compiles then Exec(b, begun, self, source.body) else (begun, false);
      BundleTransaction(b, st, d, source, done);
      Settle(done, d, if completed then None else Some(GuestError), self)
  }

  // ----- whole runs ----------------------------------------------------------------------------------

  // What a host does with a guest: import a module, or run source in the guest's main namespace.
  datatype Call = HostImport(name: Name) | RunMain(stmts: seq<Stmt>)

  const MAIN: Ref := 0

  function Init(): State {
    State(map[], [Object("__main__", Main, "", map[], [])], multiset{}, false, {})
  }

  function Step(b: Bindings, st: State, call: Call): State
    requires Inv(b, st) && MAIN < |st.heap|
  {
    match call
    case RunMain(stmts) => Exec(b, st, MAIN, stmts).0
    case HostImport(d) =>
      if Resolve(b, st, "", d, 0).Resolved? then ImportModule(b, st, d).0 else st
  }

  function Run(b: Bindings, st: State, calls: seq<Call>): (r: State)
    requires Inv(b, st) && MAIN < |st.heap|
    ensures Frame(b, st, r, {MAIN}, {}) && (b.Valid() ==> r.faulted == st.faulted)
    decreases |calls|
  {
    FrameRefl(b, st, {MAIN}, {});
    if calls == [] then st
    else
      var st1 := Step(b, st, calls[0]);
      if calls[0].HostImport? && Resolve(b, st, "", calls[0].name, 0).Resolved? then
        FrameWeaken(b, st, st1, {MAIN}, {});
        var r := Run(b, st1, calls[1..]);
        FrameTrans(b, st, st1, r, {MAIN}, {});
        r
      else
        var r := Run(b, st1, calls[1..]);
        FrameTrans(b, st, st1, r, {MAIN}, {});
        r
  }
}
