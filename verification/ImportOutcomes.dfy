/**
 What realising one name answers and leaves behind, source by source.  Everything is said from the
 bindings and the state before: which maps hold the name, what its loader or its members answer, and which
 object is in the cache afterwards.
 */
module ImportOutcomes {
  import opened Wrappers
  import opened Names
  import opened Importer
  import opened ImportLaws

  // The state in which `obj` was made for its name and put into the cache.
  function WithNew(st: State, obj: Object): State {
    State(st.realised[obj.name := |st.heap|], st.heap + [obj], st.attempts + multiset{obj.name}, st.faulted, st.bound)
  }

  // The state in which an attempt left nothing behind.
  ghost predicate OnlyTried(st: State, d: Name, after: State) {
    && after.realised == st.realised && after.heap == st.heap && after.bound == st.bound
    && after.attempts == st.attempts + multiset{d}
  }

  // ----- native modules and extensions ---------------------------------------------------------

  // A name that no host module has comes from the native module of that name, whose declaration decides.
  lemma {:induction false} NativeOutcome(b: Bindings, st: State, d: Name)
    requires Inv(b, st) && d !in st.realised && d !in b.specs && d in b.natives
    ensures var (after, r) := Realise(b, st, d);
            && r == (if b.natives[d].None? then Ok(|st.heap|) else Err(b.natives[d].value))
            && (r.Ok? ==> after == WithNew(st, Object(d, Native, "", map[], [])))
            && (r.Err? ==> OnlyTried(st, d, after) && after.faulted == st.faulted)
  {
    hide Frame, Transaction, Inv, Linked;
    assert Realise(b, st, d) == RealiseNative(b, st, d);
  }

  // A name that nothing else provides comes from the extension of that name: its parents are to be cached,
  // and then its loader decides.
  lemma {:induction false} ExtensionOutcome(b: Bindings, st: State, d: Name)
    requires Inv(b, st) && d !in st.realised
    requires d !in b.specs && d !in b.natives && d !in b.sources && d in b.extensions
    ensures var (after, r) := Realise(b, st, d);
            && (r.Ok? <==> b.extensions[d].None? && forall p :: p in Prefixes(d) && p != d ==> p in st.realised)
            && (r.Ok? ==> r.value == |st.heap| && after == WithNew(st, Object(d, Extension, "", map[], [])))
            && (r.Err? ==> OnlyTried(st, d, after))
            && (r.Err? && (forall p :: p in Prefixes(d) && p != d ==> p in st.realised) ==>
                  b.extensions[d] == Some(r.error))
            && (r.Err? && (exists p :: p in Prefixes(d) && p != d && p !in st.realised) ==>
                  r.error == ImportError(d, ParentMissing))
  {
    hide Frame, Transaction, Inv, Linked;
    assert Realise(b, st, d) == RealiseExtension(b, st, d);
    ProperPrefixes(d);
    assert HasParents(st, d) <==> forall p :: p in Prefixes(d) && p != d ==> p in st.realised;
  }

  lemma {:induction false} ProperPrefixes(d: Name)
    ensures forall k :: 0 <= k < |Prefixes(d)| - 1 ==> Prefixes(d)[k] != d
    ensures forall p :: p in Prefixes(d) && p != d ==> exists k :: 0 <= k < |Prefixes(d)| - 1 && Prefixes(d)[k] == p
  {
    forall k | 0 <= k < |Prefixes(d)| - 1
      ensures Prefixes(d)[k] != d
    {
      PrefixesOfPrefix(d, k);
    }
  }

  // ----- host modules ----------------------------------------------------------------------------

  // Member `i` is the first that fails.
  predicate FailsFirst(members: seq<Member>, i: nat) {
    i < |members| && members[i].Failing? && forall k :: 0 <= k < i ==> !members[k].Failing?
  }

  // A host module takes precedence over everything else of its name: it is there unless a member fails,
  // and then the first failing member gives the error and only the cache entry is taken back.
  lemma {:induction false} HostOutcome(b: Bindings, st: State, d: Name)
    requires Inv(b, st) && d !in st.realised && d in b.specs
    ensures var (after, r) := Realise(b, st, d);
            && |after.heap| == |st.heap| + 1
            && after.heap[..|st.heap|] == st.heap
            && after.heap[|st.heap|].name == d && after.heap[|st.heap|].kind == Host
            && after.attempts == st.attempts + multiset{d}
            && after.bound == st.bound && after.faulted == st.faulted
            && (r.Ok? ==> r.value == |st.heap| && after.realised == st.realised[d := |st.heap|])
            && (r.Err? ==> after.realised == st.realised)
    ensures Realise(b, st, d).1.Ok? <==> forall i :: 0 <= i < |b.specs[d]| ==> !b.specs[d][i].Failing?
    ensures forall i: nat :: FailsFirst(b.specs[d], i) ==> Realise(b, st, d).1 == Err(b.specs[d][i].error)
  {
    HostSteps(b, st, d);
    hide Frame, Transaction, Inv, Realise, RealiseHost, Seeds, DeclaredNames, Begin;
    var self, begun, members := |st.heap|, Begin(st, d, Host, ""), b.specs[d];
    BeginLeaves(st, d, Host);
    DeclareSets(begun, self, members);
    DeclareTouches(begun, self, members);
    BindLazyTouches(Declare(begun, self, members).0, self, members);
    hide Declare, BindLazy;
    forall i: nat | FailsFirst(members, i)
      ensures Realise(b, st, d).1 == Err(members[i].error)
    {
      FirstFailureDecides(begun, self, members, i);
    }
  }

  lemma {:induction false} BeginLeaves(st: State, d: Name, kind: Kind)
    requires d !in st.realised
    ensures var begun := Begin(st, d, kind, "");
            && |begun.heap| == |st.heap| + 1 && begun.heap[..|st.heap|] == st.heap
            && begun.heap[|st.heap|].name == d && begun.heap[|st.heap|].kind == kind
            && begun.realised == st.realised[d := |st.heap|] && begun.realised - {d} == st.realised
            && begun.attempts == st.attempts + multiset{d}
            && begun.bound == st.bound && begun.faulted == st.faulted
  {
    hide Seeds;
  }

  lemma {:induction false} FirstFailureDecides(st: State, self: Ref, members: seq<Member>, i: nat)
    requires self < |st.heap| && FailsFirst(members, i)
    ensures Declare(st, self, members).1 == Some(members[i].error)
    decreases i
  {
    if i > 0 {
      var next := if members[0].Value? then SetAttr(st, self, members[0].name, Plain) else st;
      FirstFailureDecides(next, self, members[1..], i - 1);
    }
  }

  // Everything but the attributes of one object is the same.
  ghost predicate Touches(st: State, self: Ref, after: State) {
    && after == st.(heap := after.heap) && |after.heap| == |st.heap|
    && self < |st.heap|
    && after.heap[self] == st.heap[self].(attrs := after.heap[self].attrs)
    && forall r :: 0 <= r < |st.heap| && r != self ==> after.heap[r] == st.heap[r]
  }

  lemma {:induction false} DeclareTouches(st: State, self: Ref, members: seq<Member>)
    requires self < |st.heap|
    ensures Touches(st, self, Declare(st, self, members).0)
    decreases |members|
  {
    if members != [] && !members[0].Failing? {
      DeclareTouches(if members[0].Value? then SetAttr(st, self, members[0].name, Plain) else st, self, members[1..]);
    }
  }

  lemma {:induction false} BindAllTouches(st: State, self: Ref, names: seq<string>)
    requires self < |st.heap|
    ensures Touches(st, self, BindAll(st, self, names))
    decreases |names|
  {
    if names != [] {
      BindAllTouches(SetAttr(st, self, names[0], Plain), self, names[1..]);
    }
  }

  lemma {:induction false} BindLazyTouches(st: State, self: Ref, members: seq<Member>)
    requires self < |st.heap|
    ensures Touches(st, self, BindLazy(st, self, members))
  {
    BindAllTouches(st, self, LazyNames(members) + ["__getattr__"]);
  }

  // ----- bundle modules ------------------------------------------------------------------------------

  // The object of a bundle module before its code runs: its home for relative imports is the package
  // itself or what is left without the last component.
  function NewModule(d: Name, source: Source): Object {
    var parts := Split(d, '.');
    var home := if source.isPackage then d else if |parts| == 1 then "" else Join(parts[..|parts| - 1], '.');
    var names := {"__name__", "__builtins__", "__file__", "__package__", "__loader__", "__spec__"};
    Object(d, BundleSource, home, Plainly(if source.isPackage then names + {"__path__"} else names), [])
  }

  lemma {:induction false} BegunIsCached(st: State, d: Name, source: Source)
    ensures BeginBundle(st, d, source) == WithNew(st, NewModule(d, source))
  {
    ParentDropsLastComponent(d);
    assert Package(d, source) == NewModule(d, source).package by { hide Split, Join, Parent, Plainly; }
    SeedsAre();
    var begun := BeginBundle(st, d, source);
    hide Package, Seeds, Split, Join;
    assert begun.heap[|st.heap|].attrs ==
      if source.isPackage then Seeds(BundleSource)["__path__" := Plain] else Seeds(BundleSource);
    assert begun.heap[|st.heap|] == NewModule(d, source);
    assert begun.heap == st.heap + [NewModule(d, source)];
  }

  // A name that neither a host module nor a native module has comes from the bundle: it must hold the
  // module and be prepared, the code must compile, and then the module's code runs with the new object
  // already cached and decides.
  lemma {:induction false} BundleOutcome(b: Bindings, st: State, d: Name)
    requires Inv(b, st) && d !in st.realised && d !in b.specs && d !in b.natives && d in b.sources
    ensures var bundle := b.sources[d];
            var (after, r) := Realise(b, st, d);
            if d !in bundle.modules then r == Err(ImportError(d, SourceMissing)) && OnlyTried(st, d, after)
            else if bundle.id !in b.prepared then r == Err(Unexpected) && OnlyTried(st, d, after)
            else
              var source := bundle.modules[d];
              var begun := WithNew(st, NewModule(d, source));
              && Inv(b, begun)
              && var (done, completed) := Exec(b, begun, |st.heap|, source.body);
                 if !source.compiles then r == Err(GuestError) && after == begun.(realised := st.realised)
                 else if completed then r == Ok(|st.heap|) && after == done
                 else r == Err(GuestError) && after == done.(realised := done.realised - {d})
  {
    hide Frame, Transaction, Linked, Exec, Realise, BeginBundle, Split, Join, Plainly, Inv;
    var bundle := b.sources[d];
    if d in bundle.modules && bundle.id in b.prepared {
      RunsBody(b, st, d);
      BegunIsCached(st, d, bundle.modules[d]);
      assert st.realised[d := |st.heap|] - {d} == st.realised;
    } else {
      NoBody(b, st, d);
    }
  }

  lemma {:induction false} NoBody(b: Bindings, st: State, d: Name)
    requires Inv(b, st) && d !in st.realised && d !in b.specs && d !in b.natives && d in b.sources
    requires d !in b.sources[d].modules || b.sources[d].id !in b.prepared
    ensures Realise(b, st, d) ==
              (Fault(Attempt(st, d)),
               Err(if d !in b.sources[d].modules then ImportError(d, SourceMissing) else Unexpected))
  {
    hide Frame, Transaction, Linked, Exec, Inv, Fault, Attempt;
    assert Realise(b, st, d) == RealiseBundle(b, st, d);
  }

  lemma {:induction false} RunsBody(b: Bindings, st: State, d: Name)
    requires Inv(b, st) && d !in st.realised && d !in b.specs && d !in b.natives && d in b.sources
    requires d in b.sources[d].modules && b.sources[d].id in b.prepared
    ensures var source := b.sources[d].modules[d];
            var begun := BeginBundle(st, d, source);
            && Inv(b, begun) && |st.heap| < |begun.heap|
            && var (done, completed) :=
                 if source.compiles then Exec(b, begun, |st.heap|, source.body) else (begun, false);
               Realise(b, st, d) == Settle(done, d, if completed then None else Some(GuestError), |st.heap|)
  {
    BeginBundleFrame(b, st, d, b.sources[d].modules[d]);
    hide Frame, Transaction, Linked, Exec, Inv, BeginBundle, Settle;
    assert Realise(b, st, d) == RealiseBundle(b, st, d);
  }
}
