/**
 A guest over its life: the host imports modules, runs programs and mounts further bundles, in any
 order.  What one import guarantees survives the mounts between imports.
 */
module MountedRuns {
  import opened Wrappers
  import opened Names
  import opened Importer
  import ImportLaws
  import Overlay

  // What a guest is bound to from the start.
  datatype Fixed = Fixed(
    specs: map<Name, seq<Member>>, natives: map<Name, Option<Error>>, denied: set<Name>,
    foreign: set<(string, nat)>)

  type Loading = (Overlay.Loader, Name) -> Option<Error>

  function BindingsOf(f: Fixed, loads: Loading, s: Overlay.Sources): Bindings {
    Bindings(f.specs, f.natives, s.sources, s.prepared.Keys,
             map d | d in s.extensions :: loads(s.extensions[d], d), f.denied, f.foreign)
  }

  datatype Guest = Guest(sources: Overlay.Sources, state: State)

  datatype Event = Called(call: Call) | Mounted(mounting: Overlay.Mounting)

  ghost predicate Ready(f: Fixed, loads: Loading, g: Guest) {
    && Overlay.Inv(g.sources) && Inv(BindingsOf(f, loads, g.sources), g.state)
    && MAIN < |g.state.heap| && g.state.heap[MAIN].kind == Main
  }

  function Happen(f: Fixed, loads: Loading, g: Guest, e: Event): Guest
    requires Ready(f, loads, g)
  {
    match e
    case Called(call) => g.(state := Step(BindingsOf(f, loads, g.sources), g.state, call))
    case Mounted(m) => g.(sources := Overlay.Mount(f.specs.Keys, g.sources, m).0)
  }

  // ----- one event ---------------------------------------------------------------------------------

  // Mounting only adds names, so whatever was realised still fits.
  lemma {:induction false} MountKeepsFits(
    f: Fixed, loads: Loading, s: Overlay.Sources, m: Overlay.Mounting, d: Name, kind: Kind)
    requires Fits(BindingsOf(f, loads, s), d, kind)
    ensures Fits(BindingsOf(f, loads, Overlay.Mount(f.specs.Keys, s, m).0), d, kind)
  {
  }

  lemma {:induction false} MountKeepsReady(f: Fixed, loads: Loading, g: Guest, m: Overlay.Mounting)
    requires Ready(f, loads, g)
    ensures Ready(f, loads, Happen(f, loads, g, Mounted(m)))
  {
    Overlay.MountKeepsInv(f.specs.Keys, g.sources, m);
    var st, after := g.state, Overlay.Mount(f.specs.Keys, g.sources, m).0;
    hide Fits, BindingsOf, Overlay.Inv, Overlay.Mount;
    forall d | d in st.realised
      ensures Fits(BindingsOf(f, loads, after), d, st.heap[st.realised[d]].kind)
    {
      MountKeepsFits(f, loads, g.sources, m, d, st.heap[st.realised[d]].kind);
    }
  }

  // What an event keeps: the cache, the number of times the code of a cached module ran, the bindings
  // of submodules, and the absence of internal errors.
  ghost predicate Kept(st: State, st': State) {
    && SameCache(st, st') && SameAttempts(st, st') && st'.faulted == st.faulted
    && forall d :: Linked(st, d) ==> Linked(st', d)
  }

  lemma {:induction false} SourcesValid(f: Fixed, loads: Loading, g: Guest)
    requires Ready(f, loads, g)
    ensures BindingsOf(f, loads, g.sources).Valid()
  {
  }

  lemma {:induction false} StepFrame(b: Bindings, st: State, call: Call)
    requires Inv(b, st) && MAIN < |st.heap|
    ensures Frame(b, st, Step(b, st, call), {MAIN}, {})
    ensures b.Valid() ==> Step(b, st, call).faulted == st.faulted
  {
    FrameRefl(b, st, {MAIN}, {});
    if call.HostImport? && Resolve(b, st, "", call.name, 0).Resolved? {
      assert Frame(b, st, ImportModule(b, st, call.name).0, {}, {});
      hide Frame, Exec, ImportModule, Resolve;
      FrameWeaken(b, st, Step(b, st, call), {MAIN}, {});
    }
    hide Frame, Exec, ImportModule, Resolve;
  }

  lemma {:induction false} FrameKeeps(b: Bindings, st: State, st': State)
    requires Inv(b, st) && Frame(b, st, st', {MAIN}, {}) && MAIN < |st.heap| && st.heap[MAIN].kind == Main
    requires st'.faulted == st.faulted
    ensures Kept(st, st') && MAIN < |st'.heap| && st'.heap[MAIN].kind == Main && Inv(b, st')
  {
    hide Linked, KeepsLinks, LinksNew;
    forall d | Linked(st, d)
      ensures Linked(st', d)
    {
      ImportLaws.MainKeepsLink(b, st, st', d);
    }
  }

  lemma {:induction false} Happened(f: Fixed, loads: Loading, g: Guest, e: Event)
    requires Ready(f, loads, g)
    ensures Ready(f, loads, Happen(f, loads, g, e)) && Kept(g.state, Happen(f, loads, g, e).state)
  {
    match e {
      case Called(call) =>
        var b := BindingsOf(f, loads, g.sources);
        SourcesValid(f, loads, g);
        hide BindingsOf, Inv, Kept, Frame, Step;
        StepFrame(b, g.state, call);
        FrameKeeps(b, g.state, Step(b, g.state, call));
      case Mounted(m) =>
        MountKeepsReady(f, loads, g, m);
        hide Ready, Linked;
    }
  }

  // ----- whole lives ---------------------------------------------------------------------------------

  ghost function Live(f: Fixed, loads: Loading, g: Guest, events: seq<Event>): (r: Guest)
    requires Ready(f, loads, g)
    ensures Ready(f, loads, r) && Kept(g.state, r.state)
    decreases |events|
  {
    if events == [] then g
    else
      Happened(f, loads, g, events[0]);
      var next := Happen(f, loads, g, events[0]);
      var r := Live(f, loads, next, events[1..]);
      KeptTrans(g.state, next.state, r.state);
      r
  }

  lemma {:induction false} KeptTrans(a: State, b: State, c: State)
    requires Kept(a, b) && Kept(b, c)
    ensures Kept(a, c)
  {
    hide Linked;
  }

  lemma {:induction false} LiveOn(f: Fixed, loads: Loading, g: Guest, first: seq<Event>, rest: seq<Event>)
    requires Ready(f, loads, g)
    ensures Live(f, loads, g, first + rest) == Live(f, loads, Live(f, loads, g, first), rest)
    decreases |first|
  {
    hide Ready, Kept, Happen;
    if first == [] {
      assert first + rest == rest;
    } else {
      Happened(f, loads, g, first[0]);
      assert (first + rest)[1..] == first[1..] + rest;
      LiveOn(f, loads, Happen(f, loads, g, first[0]), first[1..], rest);
    }
  }

  lemma {:induction false} LifeKeeps(f: Fixed, loads: Loading, g: Guest, events: seq<Event>, k: nat)
    requires Ready(f, loads, g) && k <= |events|
    ensures var early, late := Live(f, loads, g, events[..k]), Live(f, loads, g, events);
            Kept(early.state, late.state) && Kept(g.state, late.state)
  {
    hide Ready, Live, Kept;
    assert events[..k] + events[k..] == events;
    LiveOn(f, loads, g, events[..k], events[k..]);
  }

  function Born(bundles: seq<Overlay.Listed>): Guest
    requires Overlay.PrepareAll(bundles).Some?
  {
    Guest(Overlay.PrepareAll(bundles).value, Init())
  }

  lemma {:induction false} BornReady(f: Fixed, loads: Loading, bundles: seq<Overlay.Listed>)
    requires Overlay.PrepareAll(bundles).Some?
    ensures Ready(f, loads, Born(bundles))
  {
    Overlay.PrepareAllKeepsInv(bundles);
    hide Overlay.PrepareAll, Overlay.Inv;
  }

  // Whatever bundles a guest starts with and whatever is mounted between its calls: no internal error
  // of the importer is raised, every cached object was made for its name, and what is cached or bound
  // at some point stays so, with its code never running again.
  lemma {:induction false} EveryLife(
    f: Fixed, loads: Loading, bundles: seq<Overlay.Listed>, events: seq<Event>, k: nat)
    requires Overlay.PrepareAll(bundles).Some? && k <= |events|
    ensures Ready(f, loads, Born(bundles))
    ensures var early := Live(f, loads, Born(bundles), events[..k]);
            var late := Live(f, loads, Born(bundles), events);
            && Kept(early.state, late.state) && !late.state.faulted
            && Inv(BindingsOf(f, loads, late.sources), late.state)
  {
    BornReady(f, loads, bundles);
    LifeKeeps(f, loads, Born(bundles), events, k);
    assert !Born(bundles).state.faulted;
    hide Born, Overlay.PrepareAll, Overlay.Inv, Inv, Live, Linked, SameCache, SameAttempts, BindingsOf;
  }
}
