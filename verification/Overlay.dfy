/**
 What a guest is bound to.  Later bundles shadow earlier ones name by name, a bundle is prepared
 once however often it is listed or mounted, and a host class belongs to the first module it is
 reachable from.
 */
module Overlay {
  import opened Wrappers
  import opened Importer

  // ----- bundles ------------------------------------------------------------------------------

  // The loader prepared for a bundle, and the extension modules it claims.
  datatype Loader = Loader(serial: nat, names: set<Name>)

  // `preparations` is the history of the bundles that were prepared.
  datatype Sources = Sources(
    sources: map<Name, Bundle>, prepared: map<nat, Loader>, extensions: map<Name, Loader>,
    loaded: map<Name, nat>, preparations: multiset<nat>)

  const NO_SOURCES: Sources := Sources(map[], map[], map[], map[], multiset{})

  // What preparing would give: nothing if it fails, else the names the loader claims.
  type Outcome = Option<set<Name>>

  function LoaderFor(s: Sources, bundle: Bundle, outcome: Outcome): Option<Loader> {
    if bundle.id in s.prepared then Some(s.prepared[bundle.id])
    else if outcome.None? then None
    else Some(Loader(|s.preparations|, outcome.value))
  }

  function Prepare(s: Sources, bundle: Bundle, outcome: Outcome): Option<Sources> {
    var loader := LoaderFor(s, bundle, outcome);
    if loader.None? then None
    else
      Some(s.(
        sources := s.sources + map d | d in bundle.modules :: bundle,
        extensions := s.extensions + map d | d in loader.value.names :: loader.value,
        prepared := s.prepared[bundle.id := loader.value],
        preparations :=
          if bundle.id in s.prepared then s.preparations else s.preparations + multiset{bundle.id}))
  }

  ghost predicate ListedTrue(s: Sources) {
    forall d :: d in s.sources ==> d in s.sources[d].modules && s.sources[d].id in s.prepared
  }

  ghost predicate ClaimedTrue(s: Sources) {
    forall d :: d in s.extensions ==> d in s.extensions[d].names && s.extensions[d] in s.prepared.Values
  }

  ghost predicate PreparedOnce(s: Sources) {
    forall id :: s.preparations[id] == if id in s.prepared then 1 else 0
  }

  ghost predicate OwnLoader(s: Sources) {
    && (forall id :: id in s.prepared ==> s.prepared[id].serial < |s.preparations|)
    && (forall id, other :: id in s.prepared && other in s.prepared && id != other ==>
         s.prepared[id].serial != s.prepared[other].serial)
  }

  ghost predicate Inv(s: Sources) {
    && ListedTrue(s) && ClaimedTrue(s) && PreparedOnce(s) && OwnLoader(s)
    && (forall root :: root in s.loaded ==> s.loaded[root] in s.prepared)
  }

  datatype Listed = Listed(bundle: Bundle, outcome: Outcome)

  // The bundles of a new guest, the runtime's before its own.
  function PrepareAll(bundles: seq<Listed>): Option<Sources> {
    if bundles == [] then Some(NO_SOURCES)
    else
      var last := bundles[|bundles| - 1];
      var before := PrepareAll(bundles[..|bundles| - 1]);
      if before.None? then None else Prepare(before.value, last.bundle, last.outcome)
  }

  datatype Refusal = NameInUse(root: Name) | NotPrepared

  datatype Mounting = Mounting(bundle: Bundle, root: Name, outcome: Outcome)

  function Mount(specs: set<Name>, s: Sources, m: Mounting): (Sources, Option<Refusal>) {
    if m.root in specs then (s, Some(NameInUse(m.root)))
    else if m.root in s.loaded then
      (s, if s.loaded[m.root] == m.bundle.id then None else Some(NameInUse(m.root)))
    else
      match Prepare(s, m.bundle, m.outcome)
      case None => (s, Some(NotPrepared))
      case Some(t) => (t.(loaded := t.loaded[m.root := m.bundle.id]), None)
  }

  function MountAll(specs: set<Name>, s: Sources, mounts: seq<Mounting>): Sources {
    if mounts == [] then s
    else Mount(specs, MountAll(specs, s, mounts[..|mounts| - 1]), mounts[|mounts| - 1]).0
  }

  // Preparing fails only for a bundle that was not prepared before.  Else each of the bundle's modules comes from
  // it, and each extension its loader claims from that loader, which is the one from before or a new one
  // that claims what preparing gave; no other name moves.
  lemma {:induction false} PrepareEffect(s: Sources, bundle: Bundle, outcome: Outcome)
    ensures Prepare(s, bundle, outcome).Some? <==> bundle.id in s.prepared || outcome.Some?
    ensures Prepare(s, bundle, outcome).Some? ==>
              var t := Prepare(s, bundle, outcome).value;
              var claimed := if bundle.id in s.prepared then s.prepared[bundle.id].names else outcome.value;
              && t.prepared.Keys == s.prepared.Keys + {bundle.id}
              && (forall id :: id in s.prepared ==> t.prepared[id] == s.prepared[id])
              && t.prepared[bundle.id].names == claimed
              && t.extensions.Keys == s.extensions.Keys + claimed
              && (forall d :: d in t.extensions ==>
                   t.extensions[d] == if d in claimed then t.prepared[bundle.id] else s.extensions[d])
              && t.sources.Keys == s.sources.Keys + bundle.modules.Keys
              && (forall d :: d in t.sources ==>
                   t.sources[d] == if d in bundle.modules then bundle else s.sources[d])
              && t.preparations[bundle.id] ==
                   s.preparations[bundle.id] + (if bundle.id in s.prepared then 0 else 1)
              && t.loaded == s.loaded
  {
    var loader := LoaderFor(s, bundle, outcome);
    if loader.Some? {
      assert loader.value.names == if bundle.id in s.prepared then s.prepared[bundle.id].names else outcome.value;
      assert bundle.id in s.prepared ==> loader.value == s.prepared[bundle.id];
      hide LoaderFor;
      var t := Prepare(s, bundle, outcome).value;
      assert t.extensions == s.extensions + map d | d in loader.value.names :: loader.value;
      assert t.sources == s.sources + map d | d in bundle.modules :: bundle;
    }
  }

  lemma {:induction false} PrepareKeepsListed(s: Sources, bundle: Bundle, outcome: Outcome)
    requires Prepare(s, bundle, outcome).Some?
    ensures ListedTrue(s) ==> ListedTrue(Prepare(s, bundle, outcome).value)
    ensures PreparedOnce(s) ==> PreparedOnce(Prepare(s, bundle, outcome).value)
    ensures forall id :: id in s.prepared ==>
              id in Prepare(s, bundle, outcome).value.prepared
              && Prepare(s, bundle, outcome).value.prepared[id] == s.prepared[id]
    ensures Prepare(s, bundle, outcome).value.loaded == s.loaded
  {
  }

  lemma {:induction false} PrepareKeepsClaimed(s: Sources, bundle: Bundle, outcome: Outcome)
    requires ClaimedTrue(s) && Prepare(s, bundle, outcome).Some?
    ensures ClaimedTrue(Prepare(s, bundle, outcome).value)
  {
    var t := Prepare(s, bundle, outcome).value;
    var loader := LoaderFor(s, bundle, outcome).value;
    assert t.prepared == s.prepared[bundle.id := loader];
    forall d | d in t.extensions
      ensures d in t.extensions[d].names && t.extensions[d] in t.prepared.Values
    {
      if d in loader.names {
        assert t.prepared[bundle.id] == loader;
      } else {
        var id :| id in s.prepared && s.prepared[id] == s.extensions[d];
        assert id in t.prepared && t.prepared[id] == t.extensions[d];
      }
    }
  }

  lemma {:induction false} PrepareKeepsLoaders(s: Sources, bundle: Bundle, outcome: Outcome)
    requires OwnLoader(s) && Prepare(s, bundle, outcome).Some?
    ensures OwnLoader(Prepare(s, bundle, outcome).value)
  {
    var t := Prepare(s, bundle, outcome).value;
    assert |t.preparations| == |s.preparations| + if bundle.id in s.prepared then 0 else 1;
    assert t.prepared == s.prepared[bundle.id := LoaderFor(s, bundle, outcome).value];
  }

  lemma {:induction false} PrepareKeepsInv(s: Sources, bundle: Bundle, outcome: Outcome)
    requires Inv(s) && Prepare(s, bundle, outcome).Some?
    ensures Inv(Prepare(s, bundle, outcome).value)
  {
    PrepareKeepsListed(s, bundle, outcome);
    PrepareKeepsClaimed(s, bundle, outcome);
    PrepareKeepsLoaders(s, bundle, outcome);
    hide Prepare, ListedTrue, ClaimedTrue, PreparedOnce, OwnLoader;
  }

  lemma {:induction false} PrepareAllKeepsInv(bundles: seq<Listed>)
    requires PrepareAll(bundles).Some?
    ensures Inv(PrepareAll(bundles).value)
  {
    if bundles != [] {
      var last := bundles[|bundles| - 1];
      PrepareAllKeepsInv(bundles[..|bundles| - 1]);
      PrepareKeepsInv(PrepareAll(bundles[..|bundles| - 1]).value, last.bundle, last.outcome);
    }
  }

  lemma {:induction false} MountKeepsInv(specs: set<Name>, s: Sources, m: Mounting)
    requires Inv(s)
    ensures Inv(Mount(specs, s, m).0)
  {
    if m.root !in s.loaded && Prepare(s, m.bundle, m.outcome).Some? {
      PrepareKeepsInv(s, m.bundle, m.outcome);
      PrepareKeepsListed(s, m.bundle, m.outcome);
      var t := Prepare(s, m.bundle, m.outcome).value;
      assert m.bundle.id in t.prepared;
      hide Prepare;
    }
  }

  predicate TakesEffect(specs: set<Name>, s: Sources, m: Mounting) {
    m.root !in specs && m.root !in s.loaded && (m.bundle.id in s.prepared || m.outcome.Some?)
  }

  // A mount is refused, or repeats an earlier one, or takes effect: it changes nothing exactly in
  // the first two cases, and in the third every name of the bundle resolves to it and no other
  // name moves.
  lemma {:induction false} MountEffect(specs: set<Name>, s: Sources, m: Mounting)
    ensures var (t, refusal) := Mount(specs, s, m);
            && (t != s <==> TakesEffect(specs, s, m))
            && (refusal.None? <==>
                 TakesEffect(specs, s, m)
                 || (m.root !in specs && m.root in s.loaded && s.loaded[m.root] == m.bundle.id))
            && (refusal.Some? ==>
                 refusal == Some(if m.root in specs || m.root in s.loaded then NameInUse(m.root) else NotPrepared))
            && (TakesEffect(specs, s, m) ==>
                 && (forall d :: d in t.sources <==> d in s.sources || d in m.bundle.modules)
                 && (forall d :: d in t.sources ==>
                      t.sources[d] == if d in m.bundle.modules then m.bundle else s.sources[d])
                 && t.loaded == s.loaded[m.root := m.bundle.id])
  {
    hide Inv;
  }

  // Over construction and any sequence of mounts, what the importer relies on holds: each source
  // contains the name it is listed under and its bundle is prepared, and no bundle was prepared twice.
  lemma {:induction false} SourcesAreValid(bundles: seq<Listed>, specs: set<Name>, mounts: seq<Mounting>)
    requires PrepareAll(bundles).Some?
    ensures var s := MountAll(specs, PrepareAll(bundles).value, mounts);
            && Inv(s)
            && (forall id :: s.preparations[id] <= 1)
            && (forall b: Bindings :: b.sources == s.sources && b.prepared == s.prepared.Keys ==> b.Valid())
  {
    if mounts == [] {
      PrepareAllKeepsInv(bundles);
    } else {
      SourcesAreValid(bundles, specs, mounts[..|mounts| - 1]);
      MountKeepsInv(specs, MountAll(specs, PrepareAll(bundles).value, mounts[..|mounts| - 1]), mounts[|mounts| - 1]);
    }
  }

  // The loader of a prepared bundle is never replaced.
  lemma {:induction false} LoadersArePermanent(specs: set<Name>, s: Sources, mounts: seq<Mounting>, id: nat)
    requires id in s.prepared
    ensures id in MountAll(specs, s, mounts).prepared
    ensures MountAll(specs, s, mounts).prepared[id] == s.prepared[id]
  {
    if mounts != [] {
      var m, before := mounts[|mounts| - 1], MountAll(specs, s, mounts[..|mounts| - 1]);
      LoadersArePermanent(specs, s, mounts[..|mounts| - 1], id);
      if Prepare(before, m.bundle, m.outcome).Some? {
        PrepareKeepsListed(before, m.bundle, m.outcome);
      }
    }
  }

  // Among the bundles of a new guest the last one that contains a name provides it.
  lemma {:induction false} LastBundleWins(bundles: seq<Listed>, d: Name, i: nat)
    requires PrepareAll(bundles).Some? && i < |bundles| && d in bundles[i].bundle.modules
    requires forall j :: i < j < |bundles| ==> d !in bundles[j].bundle.modules
    ensures d in PrepareAll(bundles).value.sources && PrepareAll(bundles).value.sources[d] == bundles[i].bundle
  {
    if i < |bundles| - 1 {
      LastBundleWins(bundles[..|bundles| - 1], d, i);
    }
  }

  // The first listing of its bundle is the one that prepares it.
  predicate FirstListing(bundles: seq<Listed>, i: nat) {
    i < |bundles| && forall j :: 0 <= j < i ==> bundles[j].bundle.id != bundles[i].bundle.id
  }

  // A new guest gets its bundles exactly if preparing succeeds wherever a bundle is listed first, and then
  // each bundle's loader claims what that preparation gave.
  lemma {:induction false} AllPreparedIff(bundles: seq<Listed>)
    ensures PrepareAll(bundles).Some? <==> forall i: nat :: FirstListing(bundles, i) ==> bundles[i].outcome.Some?
    ensures PrepareAll(bundles).Some? ==> PreparedAsListed(bundles, PrepareAll(bundles).value)
  {
    if bundles != [] {
      var last, before := bundles[|bundles| - 1], bundles[..|bundles| - 1];
      AllPreparedIff(before);
      assert before + [last] == bundles;
      ListingStays(before, last);
      FirstListingExists(bundles, |before|);
      hide FirstListing, Prepare;
      if PrepareAll(before).Some? {
        LastListed(before, last, PrepareAll(before).value);
      }
      hide PreparedAsListed;
    }
  }

  // Each listed bundle is prepared, by what its first listing gave.
  ghost predicate PreparedAsListed(bundles: seq<Listed>, s: Sources) {
    && (forall id :: id in s.prepared <==> exists i: nat :: FirstListing(bundles, i) && bundles[i].bundle.id == id)
    && (forall i: nat :: FirstListing(bundles, i) ==>
         bundles[i].outcome.Some? && s.prepared[bundles[i].bundle.id].names == bundles[i].outcome.value)
  }

  lemma {:induction false} LastListed(before: seq<Listed>, last: Listed, s: Sources)
    requires PreparedAsListed(before, s)
    ensures FirstListing(before + [last], |before|) <==> last.bundle.id !in s.prepared
    ensures Prepare(s, last.bundle, last.outcome).Some? <==>
              (FirstListing(before + [last], |before|) ==> last.outcome.Some?)
    ensures Prepare(s, last.bundle, last.outcome).Some? ==>
              PreparedAsListed(before + [last], Prepare(s, last.bundle, last.outcome).value)
  {
    var all := before + [last];
    ListingStays(before, last);
    FirstListingExists(all, |before|);
    LastIsFirst(before, last);
    hide FirstListing;
    assert FirstListing(all, |before|) <==> last.bundle.id !in s.prepared;
    PrepareEffect(s, last.bundle, last.outcome);
    hide Prepare;
  }

  lemma {:induction false} ListingStays(before: seq<Listed>, last: Listed)
    ensures forall i: nat :: i < |before| ==>
              (before + [last])[i] == before[i] && (FirstListing(before, i) <==> FirstListing(before + [last], i))
    ensures forall i: nat :: FirstListing(before + [last], i) ==> i <= |before|
  {
    assert forall i :: 0 <= i < |before| ==> (before + [last])[i] == before[i];
  }

  lemma {:induction false} LastIsFirst(before: seq<Listed>, last: Listed)
    ensures FirstListing(before + [last], |before|) <==>
              forall i: nat :: FirstListing(before, i) ==> before[i].bundle.id != last.bundle.id
  {
    ListingStays(before, last);
    forall k: nat | k < |before| && before[k].bundle.id == last.bundle.id
      ensures exists i: nat :: FirstListing(before, i) && before[i].bundle.id == last.bundle.id
    {
      FirstListingExists(before, k);
    }
  }

  lemma {:induction false} FirstListingExists(bundles: seq<Listed>, k: nat)
    requires k < |bundles|
    ensures exists i: nat :: i <= k && FirstListing(bundles, i) && bundles[i].bundle.id == bundles[k].bundle.id
  {
    var i := 0;
    while bundles[i].bundle.id != bundles[k].bundle.id
      invariant 0 <= i <= k
      invariant forall j :: 0 <= j < i ==> bundles[j].bundle.id != bundles[k].bundle.id
      decreases k - i
    {
      i := i + 1;
    }
    assert FirstListing(bundles, i);
  }

  // ----- owners of host classes -----------------------------------------------------------------

  datatype Class = Class(payload: nat, required: bool)

  // A host module with the lineages of its classes, in order; `id` is the identity of the module.
  datatype HostModule = HostModule(id: nat, name: Name, lineage: seq<Class>)

  datatype Reached = Reached(owner: nat, class_: Class)

  function ReachedFrom(m: HostModule, n: nat): seq<Reached>
    requires n <= |m.lineage|
  {
    seq(n, i requires 0 <= i < |m.lineage| => Reached(m.id, m.lineage[i]))
  }

  // Every class with a module it is reachable from, in the order of the modules.
  function AllReached(modules: seq<HostModule>): seq<Reached> {
    if modules == [] then []
    else
      var last := modules[|modules| - 1];
      AllReached(modules[..|modules| - 1]) + ReachedFrom(last, |last.lineage|)
  }

  function Owners(reached: seq<Reached>): map<nat, nat> {
    if reached == [] then map[]
    else
      var last, before := reached[|reached| - 1], Owners(reached[..|reached| - 1]);
      if last.class_.payload in before then before else before[last.class_.payload := last.owner]
  }

  predicate Ambiguous(owners: map<nat, nat>, r: Reached) {
    r.class_.required && r.class_.payload in owners && owners[r.class_.payload] != r.owner
  }

  predicate Unambiguous(reached: seq<Reached>) {
    forall i :: 0 <= i < |reached| ==> !Ambiguous(Owners(reached[..i]), reached[i])
  }

  lemma {:induction false} NextReached(before: seq<Reached>, r: Reached)
    ensures Owners(before + [r]) ==
              if r.class_.payload in Owners(before) then Owners(before)
              else Owners(before)[r.class_.payload := r.owner]
    ensures Unambiguous(before + [r]) <==> Unambiguous(before) && !Ambiguous(Owners(before), r)
  {
    var after := before + [r];
    assert after[..|before|] == before;
    assert forall i :: 0 <= i < |before| ==> after[..i] == before[..i] && after[i] == before[i];
  }

  lemma {:induction false} ReachedGrows(before: seq<Reached>, m: HostModule, n: nat)
    requires n <= |m.lineage|
    ensures before + ReachedFrom(m, n) ==
              if n == 0 then before else before + ReachedFrom(m, n - 1) + [Reached(m.id, m.lineage[n - 1])]
  {
  }

  // What the first `n` classes of a module add to what was found before it.
  lemma {:induction false} ModuleAdds(before: seq<Reached>, m: HostModule, n: nat, payload: nat)
    requires n <= |m.lineage|
    ensures var owners, after := Owners(before), Owners(before + ReachedFrom(m, n));
            if payload in owners then payload in after && after[payload] == owners[payload]
            else
              && (payload in after <==> exists i :: 0 <= i < n && m.lineage[i].payload == payload)
              && (payload in after ==> after[payload] == m.id)
  {
    hide Owners, ReachedFrom;
    ReachedGrows(before, m, n);
    if n > 0 {
      ModuleAdds(before, m, n - 1, payload);
      NextReached(before + ReachedFrom(m, n - 1), Reached(m.id, m.lineage[n - 1]));
    }
  }

  // A module is refused exactly for a class with requirements that an earlier module owns.
  lemma {:induction false} ModuleRefused(before: seq<Reached>, m: HostModule, n: nat)
    requires n <= |m.lineage|
    ensures Unambiguous(before + ReachedFrom(m, n)) <==>
              && Unambiguous(before)
              && forall i :: 0 <= i < n ==> !Ambiguous(Owners(before), Reached(m.id, m.lineage[i]))
  {
    hide Owners, ReachedFrom, Unambiguous;
    ReachedGrows(before, m, n);
    if n > 0 {
      ModuleRefused(before, m, n - 1);
      ModuleAdds(before, m, n - 1, m.lineage[n - 1].payload);
      NextReached(before + ReachedFrom(m, n - 1), Reached(m.id, m.lineage[n - 1]));
    }
  }

  predicate Has(m: HostModule, payload: nat) {
    exists i :: 0 <= i < |m.lineage| && m.lineage[i].payload == payload
  }

  // Module `j` is the first listed one whose lineages have the class.
  predicate FirstWith(modules: seq<HostModule>, j: nat, payload: nat) {
    j < |modules| && Has(modules[j], payload) && forall i :: 0 <= i < j ==> !Has(modules[i], payload)
  }

  // A class is owned exactly if some module has it, and its owner is the first listed module that does.
  lemma {:induction false} OwnerIsFirst(modules: seq<HostModule>, payload: nat)
    ensures payload in Owners(AllReached(modules)) <==> exists j :: 0 <= j < |modules| && Has(modules[j], payload)
    ensures forall j: nat :: FirstWith(modules, j, payload) ==>
              payload in Owners(AllReached(modules)) && Owners(AllReached(modules))[payload] == modules[j].id
  {
    if modules != [] {
      var last, before := modules[|modules| - 1], modules[..|modules| - 1];
      OwnerIsFirst(before, payload);
      ModuleAdds(AllReached(before), last, |last.lineage|, payload);
      assert forall j :: 0 <= j < |before| ==> before[j] == modules[j];
      hide Owners;
      forall j: nat | FirstWith(modules, j, payload)
        ensures payload in Owners(AllReached(modules)) && Owners(AllReached(modules))[payload] == modules[j].id
      {
        if j < |before| {
          assert FirstWith(before, j, payload);
        }
      }
    }
  }

  lemma {:induction false} FirstExists(modules: seq<HostModule>, k: nat, payload: nat) returns (j: nat)
    requires k < |modules| && Has(modules[k], payload)
    ensures j <= k && FirstWith(modules, j, payload)
  {
    j := 0;
    while !Has(modules[j], payload)
      invariant 0 <= j <= k
      invariant forall i :: 0 <= i < j ==> !Has(modules[i], payload)
      decreases k - j
    {
      j := j + 1;
    }
  }

  // The two modules are distinct, the later one has the class with requirements, and the other one was there first.
  predicate Contested(modules: seq<HostModule>, j: nat, k: nat, c: Class) {
    && j < k < |modules| && modules[j].id != modules[k].id
    && c in modules[k].lineage && c.required && FirstWith(modules, j, c.payload)
  }

  // Construction fails on ownership exactly if a module has a class with requirements that another module had first.
  lemma {:induction false} RefusedIffContested(modules: seq<HostModule>)
    ensures Unambiguous(AllReached(modules)) <==> !exists j: nat, k: nat, c :: Contested(modules, j, k, c)
  {
    if modules != [] {
      var last, before := modules[|modules| - 1], modules[..|modules| - 1];
      RefusedIffContested(before);
      ModuleRefused(AllReached(before), last, |last.lineage|);
      LastRefused(modules);
      hide Unambiguous, Owners, AllReached, Contested, Ambiguous;
      assert before + [last] == modules;
      if j: nat, k: nat, c :| Contested(before, j, k, c) {
        ContestedLater(before, last, j, k, c);
      }
      if j: nat, k: nat, c :| Contested(modules, j, k, c) {
        if k < |before| {
          ContestedLater(before, last, j, k, c);
        }
      }
    }
  }

  lemma {:induction false} ContestedLater(before: seq<HostModule>, last: HostModule, j: nat, k: nat, c: Class)
    requires k < |before|
    ensures Contested(before, j, k, c) <==> Contested(before + [last], j, k, c)
  {
    assert forall i :: 0 <= i < |before| ==> (before + [last])[i] == before[i];
    hide Has;
  }

  // The last module is refused exactly if it has such a class.
  lemma {:induction false} LastRefused(modules: seq<HostModule>)
    requires modules != []
    ensures var last, before := modules[|modules| - 1], modules[..|modules| - 1];
            (exists i :: 0 <= i < |last.lineage| &&
               Ambiguous(Owners(AllReached(before)), Reached(last.id, last.lineage[i])))
            <==> exists j: nat, c :: Contested(modules, j, |before|, c)
  {
    var last, before := modules[|modules| - 1], modules[..|modules| - 1];
    hide Owners, AllReached, Has;
    forall i | 0 <= i < |last.lineage| && Ambiguous(Owners(AllReached(before)), Reached(last.id, last.lineage[i]))
      ensures exists j: nat, c :: Contested(modules, j, |before|, c)
    {
      var c := last.lineage[i];
      OwnerIsFirst(before, c.payload);
      var first :| 0 <= first < |before| && Has(before[first], c.payload);
      var j := FirstExists(before, first, c.payload);
      assert Contested(modules, j, |before|, c);
    }
    if j: nat, c :| Contested(modules, j, |before|, c) {
      OwnerIsFirst(before, c.payload);
      assert FirstWith(before, j, c.payload);
      var i :| 0 <= i < |last.lineage| && last.lineage[i] == c;
      assert Ambiguous(Owners(AllReached(before)), Reached(last.id, last.lineage[i]));
    }
  }

  // A class has one specification, whatever module it is listed on.
  predicate OneClassPerPayload(modules: seq<HostModule>) {
    forall i, j, c, e :: (0 <= i < |modules| && 0 <= j < |modules| && c in modules[i].lineage && e in modules[j].lineage
                          && c.payload == e.payload) ==> c == e
  }

  // Then construction fails exactly if two distinct modules have the same class with requirements.
  lemma {:induction false} UnambiguousIffOneModuleEach(modules: seq<HostModule>)
    requires OneClassPerPayload(modules)
    ensures Unambiguous(AllReached(modules)) <==> !exists i: nat, j: nat, c :: Shared(modules, i, j, c)
  {
    RefusedIffContested(modules);
    hide Unambiguous, AllReached, Has;
    if j: nat, k: nat, c :| Contested(modules, j, k, c) {
      OneOf(modules[j], c.payload);
      assert Shared(modules, j, k, c);
    }
    if i: nat, j: nat, c :| Shared(modules, i, j, c) {
      HasOne(modules[i], c);
      HasOne(modules[j], c);
      var first := FirstExists(modules, if i < j then i else j, c.payload);
      assert Contested(modules, first, if modules[first].id != modules[i].id then i else j, c);
    }
  }

  // Two distinct modules have the class with requirements.
  predicate Shared(modules: seq<HostModule>, i: nat, j: nat, c: Class) {
    && i < |modules| && j < |modules| && modules[i].id != modules[j].id
    && c.required && c in modules[i].lineage && c in modules[j].lineage
  }

  lemma {:induction false} HasOne(m: HostModule, c: Class)
    requires c in m.lineage
    ensures Has(m, c.payload)
  {
    var i :| 0 <= i < |m.lineage| && m.lineage[i] == c;
  }

  lemma {:induction false} OneOf(m: HostModule, payload: nat)
    requires Has(m, payload)
    ensures exists c :: c in m.lineage && c.payload == payload
  {
    var i :| 0 <= i < |m.lineage| && m.lineage[i].payload == payload;
    assert m.lineage[i] in m.lineage;
  }
}
