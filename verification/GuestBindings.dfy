/** The bindings of one guest, filled once when it is made and extended by mounts. */
module GuestBindings {
  import opened Wrappers
  import opened Importer
  import opened Overlay

  lemma {:induction false} PrepareNeedsLoader(s: Sources, bundle: Bundle, outcome: Outcome)
    ensures Prepare(s, bundle, outcome).Some? <==> LoaderFor(s, bundle, outcome).Some?
  {
  }

  lemma {:induction false} Prepared(s: Sources, t: Sources, bundle: Bundle, outcome: Outcome)
    requires var loader := LoaderFor(s, bundle, outcome);
             && loader.Some?
             && t.sources == s.sources + (map d | d in bundle.modules :: bundle)
             && t.extensions == s.extensions + (map d | d in loader.value.names :: loader.value)
             && t.prepared == s.prepared[bundle.id := loader.value] && t.loaded == s.loaded
             && t.preparations ==
                  if bundle.id in s.prepared then s.preparations else s.preparations + multiset{bundle.id}
    ensures Prepare(s, bundle, outcome) == Some(t)
  {
  }

  class GuestBindings {
    const specs: set<Name>
    const owners: map<nat, nat>
    var sources: map<Name, Bundle>
    var prepared: map<nat, Loader>
    var extensions: map<Name, Loader>
    var loaded: map<Name, nat>
    ghost var preparations: multiset<nat>
    // The number of preparations so far, which is how loaders are told apart.
    var serial: nat

    ghost function Snap(): Sources
      reads this
    {
      Sources(sources, prepared, extensions, loaded, preparations)
    }

    ghost predicate Valid()
      reads this
    {
      Overlay.Inv(Snap()) && serial == |preparations|
    }

    constructor (specs: set<Name>, owners: map<nat, nat>)
      ensures Valid() && Snap() == NO_SOURCES && this.specs == specs && this.owners == owners
    {
      this.specs, this.owners := specs, owners;
      sources, prepared, extensions, loaded, serial := map[], map[], map[], map[], 0;
      preparations := multiset{};
    }

    method ListSources(bundle: Bundle)
      modifies this`sources
      ensures sources == old(sources) + map d | d in bundle.modules :: bundle
    {
      var names := bundle.modules.Keys;
      while names != {}
        invariant names <= bundle.modules.Keys
        invariant sources == old(sources) + map d | d in bundle.modules.Keys - names :: bundle
      {
        var d :| d in names;
        names := names - {d};
        sources := sources[d := bundle];
      }
    }

    method ListExtensions(loader: Loader)
      modifies this`extensions
      ensures extensions == old(extensions) + map d | d in loader.names :: loader
    {
      var names := loader.names;
      while names != {}
        invariant names <= loader.names
        invariant extensions == old(extensions) + map d | d in loader.names - names :: loader
      {
        var d :| d in names;
        names := names - {d};
        extensions := extensions[d := loader];
      }
    }

    // The loader of a bundle prepared before, or a new one.
    method LoaderOf(bundle: Bundle, outcome: Outcome) returns (loader: Option<Loader>)
      requires serial == |preparations|
      modifies this`prepared, this`serial, this`preparations
      ensures serial == |preparations| && loader == LoaderFor(old(Snap()), bundle, outcome)
      ensures loader.Some? ==> prepared == old(prepared)[bundle.id := loader.value]
      ensures loader.Some? ==>
                preparations ==
                if bundle.id in old(prepared) then old(preparations) else old(preparations) + multiset{bundle.id}
      ensures loader.None? ==> Snap() == old(Snap())
    {
      if bundle.id in prepared {
        return Some(prepared[bundle.id]);
      }
      if outcome.None? {
        return None;
      }
      loader := Some(Loader(serial, outcome.value));
      prepared := prepared[bundle.id := loader.value];
      serial := serial + 1;
      preparations := preparations + multiset{bundle.id};
    }

    method PrepareBundle(bundle: Bundle, outcome: Outcome) returns (ok: bool)
      requires Valid()
      modifies this
      ensures Valid()
      ensures var r := Prepare(old(Snap()), bundle, outcome);
              ok == r.Some? && Snap() == if ok then r.value else old(Snap())
    {
      hide Overlay.Inv, LoaderFor, Prepare;
      ghost var before := Snap();
      PrepareNeedsLoader(before, bundle, outcome);
      var loader := LoaderOf(bundle, outcome);
      if loader.None? {
        return false;
      }
      ListSources(bundle);
      ListExtensions(loader.value);
      Prepared(before, Snap(), bundle, outcome);
      PrepareKeepsInv(before, bundle, outcome);
      return true;
    }

    method PrepareBundles(bundles: seq<Listed>) returns (ok: bool)
      requires Valid() && Snap() == NO_SOURCES
      modifies this
      ensures Valid() && ok == PrepareAll(bundles).Some?
      ensures ok ==> PrepareAll(bundles) == Some(Snap())
    {
      hide Overlay.Inv, Prepare;
      assert bundles[..|bundles|] == bundles;
      for i := 0 to |bundles|
        invariant Valid() && PrepareAll(bundles[..i]) == Some(Snap())
      {
        assert bundles[..i + 1][..i] == bundles[..i];
        ok := PrepareBundle(bundles[i].bundle, bundles[i].outcome);
        if !ok {
          PrepareAllStops(bundles, i + 1);
          return false;
        }
      }
      return true;
    }

    // A host module's name and a root in use by another bundle are refused; the same bundle under
    // the same root is mounted already.
    method MountBundle(m: Mounting) returns (refusal: Option<Refusal>)
      requires Valid()
      modifies this
      ensures Valid() && (Snap(), refusal) == Mount(specs, old(Snap()), m)
    {
      MountKeepsInv(specs, Snap(), m);
      hide Overlay.Inv, Prepare;
      if m.root in specs {
        return Some(NameInUse(m.root));
      }
      if m.root in loaded {
        return if loaded[m.root] == m.bundle.id then None else Some(NameInUse(m.root));
      }
      var ok := PrepareBundle(m.bundle, m.outcome);
      if !ok {
        return Some(NotPrepared);
      }
      loaded := loaded[m.root := m.bundle.id];
      return None;
    }
  }

  // Every class in the lineages of the modules, owned by the first module that has it.
  ghost predicate Owned(modules: seq<HostModule>, owners: map<nat, nat>) {
    && (forall payload :: payload in owners <==> exists j :: 0 <= j < |modules| && Has(modules[j], payload))
    && (forall j: nat, payload :: FirstWith(modules, j, payload) ==> owners[payload] == modules[j].id)
  }

  lemma {:induction false} OwnersAreOwned(modules: seq<HostModule>)
    ensures Owned(modules, Owners(AllReached(modules)))
  {
    forall payload: nat
      ensures payload in Owners(AllReached(modules)) <==> exists j :: 0 <= j < |modules| && Has(modules[j], payload)
      ensures forall j: nat :: FirstWith(modules, j, payload) ==>
                payload in Owners(AllReached(modules)) && Owners(AllReached(modules))[payload] == modules[j].id
    {
      OwnerIsFirst(modules, payload);
    }
    hide Owners, AllReached;
  }

  // The owner of every class reachable from the modules, unless a module has a class with requirements
  // that another module had first.
  method OwnersOf(modules: seq<HostModule>) returns (owners: Option<map<nat, nat>>)
    ensures owners.Some? <==> !exists j: nat, k: nat, c :: Contested(modules, j, k, c)
    ensures owners.Some? ==> Owned(modules, owners.value)
  {
    RefusedIffContested(modules);
    OwnersAreOwned(modules);
    var found: map<nat, nat> := map[];
    ghost var all := AllReached(modules);
    assert modules[..|modules|] == modules;
    for i := 0 to |modules|
      invariant AllReached(modules[..i]) <= all
      invariant found == Owners(AllReached(modules[..i])) && Unambiguous(AllReached(modules[..i]))
    {
      var m := modules[i];
      ghost var reached := AllReached(modules[..i]);
      assert modules[..i + 1][..i] == modules[..i];
      ReachedIsPrefix(modules, i + 1);
      var next := OwnersIn(found, m, reached);
      if next.None? {
        StillAmbiguous(all, reached + ReachedFrom(m, |m.lineage|));
        return None;
      }
      found := next.value;
    }
    return Some(found);
  }

  method OwnersIn(owners: map<nat, nat>, m: HostModule, ghost before: seq<Reached>)
    returns (r: Option<map<nat, nat>>)
    requires owners == Owners(before) && Unambiguous(before)
    ensures r.Some? <==> Unambiguous(before + ReachedFrom(m, |m.lineage|))
    ensures r.Some? ==> r.value == Owners(before + ReachedFrom(m, |m.lineage|))
  {
    hide Owners, Unambiguous, Ambiguous;
    var found := owners;
    assert before + ReachedFrom(m, 0) == before;
    for j := 0 to |m.lineage|
      invariant found == Owners(before + ReachedFrom(m, j)) && Unambiguous(before + ReachedFrom(m, j))
    {
      var class_ := m.lineage[j];
      ghost var reached, r := before + ReachedFrom(m, j), Reached(m.id, class_);
      assert before + ReachedFrom(m, j + 1) == reached + [r];
      NextReached(reached, r);
      AmbiguousMeans(found, r);
      if class_.payload !in found {
        found := found[class_.payload := m.id];
      } else if class_.required && found[class_.payload] != m.id {
        assert reached + [r] <= before + ReachedFrom(m, |m.lineage|);
        StillAmbiguous(before + ReachedFrom(m, |m.lineage|), reached + [r]);
        return None;
      }
    }
    return Some(found);
  }

  lemma {:induction false} AmbiguousMeans(owners: map<nat, nat>, r: Reached)
    ensures Ambiguous(owners, r) <==>
              r.class_.payload in owners && r.class_.required && owners[r.class_.payload] != r.owner
  {
  }

  lemma {:induction false} ReachedIsPrefix(modules: seq<HostModule>, n: nat)
    requires n <= |modules|
    ensures AllReached(modules[..n]) <= AllReached(modules)
  {
    if n == |modules| {
      assert modules[..n] == modules;
    } else {
      assert modules[..|modules| - 1][..n] == modules[..n];
      ReachedIsPrefix(modules[..|modules| - 1], n);
    }
  }

  lemma {:induction false} StillAmbiguous(all: seq<Reached>, before: seq<Reached>)
    requires before <= all && !Unambiguous(before)
    ensures !Unambiguous(all)
  {
    var i :| 0 <= i < |before| && Ambiguous(Owners(before[..i]), before[i]);
    assert all[..i] == before[..i] && all[i] == before[i];
  }

  method NewGuestBindings(modules: seq<HostModule>, bundles: seq<Listed>) returns (r: Option<GuestBindings>)
    ensures r.Some? <==> (!exists j: nat, k: nat, c :: Contested(modules, j, k, c)) && PrepareAll(bundles).Some?
    ensures r.Some? ==>
              && fresh(r.value) && r.value.Valid() && Owned(modules, r.value.owners)
              && r.value.specs == (set m | m in modules :: m.name)
              && r.value.Snap() == PrepareAll(bundles).value
  {
    var owners := OwnersOf(modules);
    if owners.None? {
      return None;
    }
    var bindings := new GuestBindings(set m | m in modules :: m.name, owners.value);
    hide Overlay.Inv, Prepare, PrepareAll, Owners, AllReached, Unambiguous;
    var ok := bindings.PrepareBundles(bundles);
    return if ok then Some(bindings) else None;
  }

  lemma {:induction false} PrepareAllStops(bundles: seq<Listed>, n: nat)
    requires n <= |bundles| && PrepareAll(bundles[..n]).None?
    ensures PrepareAll(bundles).None?
  {
    if n == |bundles| {
      assert bundles[..n] == bundles;
    } else {
      assert bundles[..|bundles| - 1][..n] == bundles[..n];
      PrepareAllStops(bundles[..|bundles| - 1], n);
    }
  }
}
