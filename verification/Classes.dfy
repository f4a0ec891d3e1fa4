/**
 Turning host class declarations into guest classes.  A declaration is a tree of base declarations;
 each payload is realised once, and a class shared by several others is the same object in all of
 them.
 */
module Classes {
  import opened Wrappers

  type Payload = nat
  type Ref = nat

  datatype Base = Host(spec: Spec) | Imported(module_: string, qualname: string)

  datatype Spec = Spec(payload: Payload, name: string, bases: seq<Base>)

  datatype BaseRef = Made(ref: Ref) | Foreign(module_: string, qualname: string) | NativeBase

  datatype ClassObject = ClassObject(payload: Payload, bases: seq<BaseRef>)

  datatype Error =
    | NotRegistered | NotAClass(module_: string, qualname: string)
    | Refused(payload: Payload) | StaticFailed(payload: Payload)

  // The classes that can be imported, the declarations that fail before their class is made, and those
  // with a static member that fails after it.
  datatype Env = Env(importable: set<(string, string)>, refused: set<Payload>, unfinished: set<Payload>)

  // `created` counts how often a class was created for each payload.
  datatype Cache = Cache(
    specs: map<Payload, Spec>, realised: map<Payload, Ref>, heap: seq<ClassObject>, created: multiset<Payload>)

  const NOTHING: Cache := Cache(map[], map[], [], multiset{})

  // ----- registration ------------------------------------------------------------------------

  // A declaration and everything it inherits from on the host side.
  function HostLineage(spec: Spec): seq<Spec>
    decreases spec, |spec.bases| + 1
  {
    [spec] + LineageOfBases(spec, |spec.bases|)
  }

  function LineageOfBases(spec: Spec, n: nat): seq<Spec>
    requires n <= |spec.bases|
    decreases spec, n
  {
    if n == 0 then []
    else
      LineageOfBases(spec, n - 1)
      + (match spec.bases[n - 1] case Host(base) => HostLineage(base) case Imported(_, _) => [])
  }

  function Intern(specs: map<Payload, Spec>, lineage: seq<Spec>): map<Payload, Spec> {
    if lineage == [] then specs
    else
      var before, last := Intern(specs, lineage[..|lineage| - 1]), lineage[|lineage| - 1];
      if last.payload in before then before else before[last.payload := last]
  }

  function Absorb(c: Cache, classes: seq<Spec>): Cache {
    if classes == [] then c
    else
      var before := Absorb(c, classes[..|classes| - 1]);
      before.(specs := Intern(before.specs, HostLineage(classes[|classes| - 1])))
  }

  // One declaration for each payload, as the type of the payload gives it.
  predicate OneSpec(world: map<Payload, Spec>, spec: Spec) {
    forall s :: s in HostLineage(spec) ==> s.payload in world && world[s.payload] == s
  }

  ghost predicate Closed(specs: map<Payload, Spec>) {
    forall p, i :: p in specs && 0 <= i < |specs[p].bases| && specs[p].bases[i].Host? ==>
      specs[p].bases[i].spec.payload in specs
  }

  ghost predicate Agrees(world: map<Payload, Spec>, specs: map<Payload, Spec>) {
    forall p :: p in specs ==> p in world && world[p] == specs[p] && OneSpec(world, specs[p])
  }

  lemma {:induction false} LineageHasBases(spec: Spec, n: nat, i: nat)
    requires i < n <= |spec.bases| && spec.bases[i].Host?
    ensures forall s :: s in HostLineage(spec.bases[i].spec) ==> s in LineageOfBases(spec, n)
    ensures spec.bases[i].spec in LineageOfBases(spec, n)
  {
    assert HostLineage(spec.bases[i].spec)[0] == spec.bases[i].spec;
    if i < n - 1 {
      LineageHasBases(spec, n - 1, i);
    }
  }

  // What a declaration inherits from is known to the world too.
  lemma {:induction false} BaseKnown(world: map<Payload, Spec>, spec: Spec, i: nat)
    requires OneSpec(world, spec) && i < |spec.bases| && spec.bases[i].Host?
    ensures OneSpec(world, spec.bases[i].spec)
    ensures spec.payload in world && world[spec.payload] == spec
  {
    LineageHasBases(spec, |spec.bases|, i);
    assert HostLineage(spec)[0] == spec;
  }

  lemma {:induction false} InternAll(specs: map<Payload, Spec>, lineage: seq<Spec>)
    ensures var after := Intern(specs, lineage);
            && (forall p :: p in specs ==> p in after && after[p] == specs[p])
            && (forall s :: s in lineage ==> s.payload in after)
            && (forall p :: p in after && p !in specs ==> after[p] in lineage && after[p].payload == p)
  {
    if lineage != [] {
      InternAll(specs, lineage[..|lineage| - 1]);
      assert lineage == lineage[..|lineage| - 1] + [lineage[|lineage| - 1]];
    }
  }

  lemma {:induction false} InternKeeps(specs: map<Payload, Spec>, lineage: seq<Spec>)
    ensures forall p :: p in specs ==> p in Intern(specs, lineage) && Intern(specs, lineage)[p] == specs[p]
  {
    InternAll(specs, lineage);
  }

  // Lineages are closed: the host bases of everything in one are in it.
  lemma {:induction false} LineageClosed(spec: Spec, s: Spec, i: nat)
    requires s in HostLineage(spec) && i < |s.bases| && s.bases[i].Host?
    ensures s.bases[i].spec in HostLineage(spec)
    decreases spec, |spec.bases| + 1
  {
    if s == spec {
      LineageHasBases(spec, |spec.bases|, i);
    } else {
      LineageOfBasesClosed(spec, |spec.bases|, s, i);
    }
  }

  lemma {:induction false} LineageOfBasesClosed(spec: Spec, n: nat, s: Spec, i: nat)
    requires n <= |spec.bases| && s in LineageOfBases(spec, n) && i < |s.bases| && s.bases[i].Host?
    ensures s.bases[i].spec in LineageOfBases(spec, n)
    decreases spec, n
  {
    if s in LineageOfBases(spec, n - 1) {
      LineageOfBasesClosed(spec, n - 1, s, i);
    } else {
      LineageClosed(spec.bases[n - 1].spec, s, i);
    }
  }

  // A declaration inherits from its host bases and from what these inherit from.
  predicate Inherits(spec: Spec, s: Spec)
    decreases spec
  {
    s == spec || exists i :: 0 <= i < |spec.bases| && spec.bases[i].Host? && Inherits(spec.bases[i].spec, s)
  }

  // A lineage lists a declaration and exactly what it inherits from.
  lemma {:induction false} LineageIsInherited(spec: Spec, s: Spec)
    ensures s in HostLineage(spec) <==> Inherits(spec, s)
    decreases spec, |spec.bases| + 1
  {
    BasesInherited(spec, |spec.bases|, s);
    assert HostLineage(spec)[0] == spec;
    assert s in HostLineage(spec) <==> s == spec || s in LineageOfBases(spec, |spec.bases|);
  }

  lemma {:induction false} BasesInherited(spec: Spec, n: nat, s: Spec)
    requires n <= |spec.bases|
    ensures s in LineageOfBases(spec, n) <==>
              exists i :: 0 <= i < n && spec.bases[i].Host? && Inherits(spec.bases[i].spec, s)
    decreases spec, n
  {
    if n > 0 {
      BasesInherited(spec, n - 1, s);
      if spec.bases[n - 1].Host? {
        LineageIsInherited(spec.bases[n - 1].spec, s);
      }
    }
  }

  lemma {:induction false} InternKeepsClosed(specs: map<Payload, Spec>, spec: Spec)
    requires Closed(specs)
    ensures Closed(Intern(specs, HostLineage(spec)))
  {
    var after := Intern(specs, HostLineage(spec));
    InternAll(specs, HostLineage(spec));
    forall p, i | p in after && 0 <= i < |after[p].bases| && after[p].bases[i].Host?
      ensures after[p].bases[i].spec.payload in after
    {
      if p !in specs {
        LineageClosed(spec, after[p], i);
      }
    }
  }

  // Whatever is absorbed, the registered classes are closed under host bases, and the first
  // declaration registered for a payload stays.
  lemma {:induction false} AbsorbCloses(c: Cache, classes: seq<Spec>)
    requires Closed(c.specs)
    ensures Closed(Absorb(c, classes).specs)
    ensures forall p :: p in c.specs ==> p in Absorb(c, classes).specs && Absorb(c, classes).specs[p] == c.specs[p]
    ensures forall i :: 0 <= i < |classes| ==> classes[i].payload in Absorb(c, classes).specs
  {
    if classes != [] {
      var before, last := Absorb(c, classes[..|classes| - 1]), classes[|classes| - 1];
      AbsorbCloses(c, classes[..|classes| - 1]);
      InternKeepsClosed(before.specs, last);
      InternAll(before.specs, HostLineage(last));
      assert HostLineage(last)[0] == last;
    }
  }

  // Only what a given declaration inherits from is registered besides, and nothing else changes.
  lemma {:induction false} AbsorbAddsLineages(c: Cache, classes: seq<Spec>, p: Payload)
    ensures Absorb(c, classes) == c.(specs := Absorb(c, classes).specs)
    ensures p in Absorb(c, classes).specs && p !in c.specs ==>
              exists i :: 0 <= i < |classes| && HasPayload(HostLineage(classes[i]), p)
  {
    if classes != [] {
      var before, last := Absorb(c, classes[..|classes| - 1]), classes[|classes| - 1];
      AbsorbAddsLineages(c, classes[..|classes| - 1], p);
      InternAll(before.specs, HostLineage(last));
      hide HostLineage, Intern;
      if p in before.specs && p !in c.specs {
        var i :| 0 <= i < |classes| - 1 && HasPayload(HostLineage(classes[..|classes| - 1][i]), p);
        assert classes[i] == classes[..|classes| - 1][i];
      } else if p in Absorb(c, classes).specs && p !in c.specs {
        assert HasPayload(HostLineage(last), p);
      }
    }
  }

  // ----- realisation ---------------------------------------------------------------------------

  predicate HasHostBase(spec: Spec) {
    exists i :: 0 <= i < |spec.bases| && spec.bases[i].Host?
  }

  // The class is made before its static members are set...
  function Make(c: Cache, spec: Spec, bases: seq<BaseRef>): Cache {
    var all := (if HasHostBase(spec) then [] else [NativeBase]) + bases;
    c.(heap := c.heap + [ClassObject(spec.payload, all)], created := c.created + multiset{spec.payload})
  }

  // ... and remembered after them.
  function Create(c: Cache, spec: Spec, bases: seq<BaseRef>): (Cache, Ref) {
    var made := Make(c, spec, bases);
    (made.(realised := c.realised[spec.payload := |c.heap|]), |c.heap|)
  }

  function RealiseBases(env: Env, c: Cache, spec: Spec, n: nat): (Cache, Result<seq<BaseRef>, Error>)
    requires n <= |spec.bases|
    decreases spec, n
  {
    if n == 0 then (c, Ok([]))
    else
      var (c1, bases) := RealiseBases(env, c, spec, n - 1);
      if bases.Err? then (c1, bases)
      else
        match spec.bases[n - 1]
        case Imported(m, q) =>
          (c1, if (m, q) in env.importable then Ok(bases.value + [Foreign(m, q)]) else Err(NotAClass(m, q)))
        case Host(base) =>
          var (c2, r) := Realise(env, c1, base);
          (c2, match r case Ok(ref) => Ok(bases.value + [Made(ref)]) case Err(error) => Err(error))
  }

  function Realise(env: Env, c: Cache, spec: Spec): (Cache, Result<Ref, Error>)
    decreases spec, |spec.bases| + 1
  {
    if spec.payload !in c.specs then (c, Err(NotRegistered))
    else if spec.payload in c.realised then (c, Ok(c.realised[spec.payload]))
    else
      var (c1, bases) := RealiseBases(env, c, spec, |spec.bases|);
      match bases
      case Err(error) => (c1, Err(error))
      case Ok(refs) =>
        if spec.payload in env.refused then (c1, Err(Refused(spec.payload)))
        else if spec.payload in env.unfinished then (Make(c1, spec, refs), Err(StaticFailed(spec.payload)))
        else
          var (c2, ref) := Create(c1, spec, refs);
          (c2, Ok(ref))
  }

  // ----- the plain meaning: no sharing, no registry -------------------------------------------

  function BasesError(env: Env, spec: Spec, n: nat): Option<Error>
    requires n <= |spec.bases|
    decreases spec, n
  {
    if n == 0 then None
    else
      var before := BasesError(env, spec, n - 1);
      if before.Some? then before
      else
        match spec.bases[n - 1]
        case Imported(m, q) => if (m, q) in env.importable then None else Some(NotAClass(m, q))
        case Host(base) => FirstError(env, base)
  }

  // The first thing that goes wrong when a declaration is created from scratch, bases first.
  function FirstError(env: Env, spec: Spec): Option<Error>
    decreases spec, |spec.bases| + 1
  {
    var bases := BasesError(env, spec, |spec.bases|);
    if bases.Some? then bases
    else if spec.payload in env.refused then Some(Refused(spec.payload))
    else if spec.payload in env.unfinished then Some(StaticFailed(spec.payload))
    else None
  }

  // The class of the declaration gets made, whatever its static members do.
  predicate Makeable(env: Env, spec: Spec) {
    BasesError(env, spec, |spec.bases|).None? && spec.payload !in env.refused
  }

  // The base of an object as the memo has it.
  function MemoOf(realised: map<Payload, Ref>, base: Base): BaseRef {
    match base
    case Imported(m, q) => Foreign(m, q)
    case Host(spec) => if spec.payload in realised then Made(realised[spec.payload]) else NativeBase
  }

  function MemosOf(realised: map<Payload, Ref>, spec: Spec, n: nat): seq<BaseRef>
    requires n <= |spec.bases|
  {
    if n == 0 then [] else MemosOf(realised, spec, n - 1) + [MemoOf(realised, spec.bases[n - 1])]
  }

  predicate BasesRealised(realised: map<Payload, Ref>, spec: Spec, n: nat)
    requires n <= |spec.bases|
  {
    forall i :: 0 <= i < n && spec.bases[i].Host? ==> spec.bases[i].spec.payload in realised
  }

  // The object made for a payload is its own, with the memoised objects of its bases as bases.
  ghost predicate Faithful(c: Cache, p: Payload)
    requires p in c.realised && p in c.specs
  {
    && c.realised[p] < |c.heap|
    && c.heap[c.realised[p]] ==
         ClassObject(p, (if HasHostBase(c.specs[p]) then [] else [NativeBase])
                        + MemosOf(c.realised, c.specs[p], |c.specs[p].bases|))
    && BasesRealised(c.realised, c.specs[p], |c.specs[p].bases|)
  }

  ghost predicate Inv(world: map<Payload, Spec>, env: Env, c: Cache) {
    && Agrees(world, c.specs) && Closed(c.specs)
    && (forall p :: p in c.realised ==> p in c.specs && Faithful(c, p) && FirstError(env, c.specs[p]).None?)
    && (forall p :: p !in env.unfinished ==> c.created[p] == if p in c.realised then 1 else 0)
    && (forall p :: p in c.created ==> p in c.specs && Makeable(env, c.specs[p]))
  }

  predicate HasPayload(lineage: seq<Spec>, p: Payload) {
    exists s :: s in lineage && s.payload == p
  }

  // Nothing realised is realised again or replaced, and only the given declarations are added.
  ghost predicate Grows(c: Cache, d: Cache, lineage: seq<Spec>) {
    && d.specs == c.specs && |c.heap| <= |d.heap| && d.heap[..|c.heap|] == c.heap
    && (forall p :: p in c.realised ==> p in d.realised && d.realised[p] == c.realised[p])
    && (forall p :: p in d.realised && p !in c.realised ==> HasPayload(lineage, p))
    && (forall p :: !HasPayload(lineage, p) ==> d.created[p] == c.created[p])
  }

  function Size(spec: Spec): nat
    decreases spec, |spec.bases| + 1
  {
    1 + SizeOfBases(spec, |spec.bases|)
  }

  function SizeOfBases(spec: Spec, n: nat): nat
    requires n <= |spec.bases|
    decreases spec, n
  {
    if n == 0 then 0
    else
      SizeOfBases(spec, n - 1)
      + (match spec.bases[n - 1] case Host(base) => Size(base) case Imported(_, _) => 0)
  }

  lemma {:induction false} LineageSmaller(spec: Spec, n: nat, s: Spec)
    requires n <= |spec.bases| && s in LineageOfBases(spec, n)
    ensures Size(s) <= SizeOfBases(spec, n)
    decreases spec, n
  {
    if s in LineageOfBases(spec, n - 1) {
      LineageSmaller(spec, n - 1, s);
    } else {
      var base := spec.bases[n - 1].spec;
      if s != base {
        LineageSmaller(base, |base.bases|, s);
      }
    }
  }

  // No class inherits from itself, so realising its bases does not realise it.
  lemma {:induction false} NotItsOwnBase(world: map<Payload, Spec>, spec: Spec, s: Spec)
    requires OneSpec(world, spec) && s in LineageOfBases(spec, |spec.bases|)
    ensures s.payload != spec.payload
  {
    assert s in HostLineage(spec) && HostLineage(spec)[0] == spec;
    LineageSmaller(spec, |spec.bases|, s);
  }

  lemma {:induction false} MemosStay(r: map<Payload, Ref>, t: map<Payload, Ref>, spec: Spec, n: nat)
    requires n <= |spec.bases| && BasesRealised(r, spec, n)
    requires forall p :: p in r ==> p in t && t[p] == r[p]
    ensures BasesRealised(t, spec, n) && MemosOf(t, spec, n) == MemosOf(r, spec, n)
  {
    if n > 0 {
      MemosStay(r, t, spec, n - 1);
    }
  }

  lemma {:induction false} GrowsTrans(c: Cache, d: Cache, e: Cache, a: seq<Spec>, b: seq<Spec>)
    requires Grows(c, d, a) && Grows(d, e, b)
    ensures Grows(c, e, a + b)
  {
    assert e.heap[..|c.heap|] == e.heap[..|d.heap|][..|c.heap|];
    forall p
      ensures HasPayload(a + b, p) <==> HasPayload(a, p) || HasPayload(b, p)
    {
      PayloadOfAppend(a, b, p);
    }
    hide HasPayload;
  }

  lemma {:induction false} PayloadOfAppend(a: seq<Spec>, b: seq<Spec>, p: Payload)
    ensures HasPayload(a + b, p) <==> HasPayload(a, p) || HasPayload(b, p)
  {
    if s :| s in a && s.payload == p {
      assert s in a + b;
    }
    if s :| s in b && s.payload == p {
      assert s in a + b;
    }
  }

  lemma {:induction false} FaithfulStays(c: Cache, d: Cache, p: Payload)
    requires p in c.realised && p in c.specs && Faithful(c, p)
    requires d.specs == c.specs && |c.heap| <= |d.heap| && d.heap[..|c.heap|] == c.heap
    requires forall q :: q in c.realised ==> q in d.realised && d.realised[q] == c.realised[q]
    ensures Faithful(d, p)
  {
    MemosStay(c.realised, d.realised, c.specs[p], |c.specs[p].bases|);
    assert d.heap[..|c.heap|][c.realised[p]] == c.heap[c.realised[p]];
  }

  lemma {:induction false} MakeGrows(c: Cache, spec: Spec, refs: seq<BaseRef>)
    ensures Grows(c, Make(c, spec, refs), [spec])
  {
    assert [spec][0] == spec;
    assert HasPayload([spec], spec.payload);
  }

  // A class that is made and not remembered moves no other.
  lemma {:induction false} MakeKeepsInv(world: map<Payload, Spec>, env: Env, c: Cache, spec: Spec, refs: seq<BaseRef>)
    requires Inv(world, env, c) && spec.payload in c.specs && c.specs[spec.payload] == spec
    requires Makeable(env, spec) && spec.payload in env.unfinished
    ensures Inv(world, env, Make(c, spec, refs))
  {
    var d := Make(c, spec, refs);
    hide Agrees, Closed, FirstError, HasHostBase, Makeable;
    forall p | p in c.realised
      ensures Faithful(d, p)
    {
      FaithfulStays(c, d, p);
    }
    hide Faithful;
  }

  lemma {:induction false} CreateKeepsInv(world: map<Payload, Spec>, env: Env, c: Cache, spec: Spec, refs: seq<BaseRef>)
    requires Inv(world, env, c) && spec.payload in c.specs && c.specs[spec.payload] == spec
    requires spec.payload !in c.realised && FirstError(env, spec).None?
    requires BasesRealised(c.realised, spec, |spec.bases|) && refs == MemosOf(c.realised, spec, |spec.bases|)
    ensures Inv(world, env, Create(c, spec, refs).0)
    ensures Grows(c, Create(c, spec, refs).0, [spec])
  {
    var d := Create(c, spec, refs).0;
    assert Makeable(env, spec);
    hide Agrees, Closed, FirstError, Makeable, Grows;
    CreateGrows(c, spec, refs);
    CreatedFaithful(c, spec, refs);
    hide HasHostBase;
    forall p | p in c.realised
      ensures Faithful(d, p)
    {
      FaithfulStays(c, d, p);
    }
    hide Faithful;
  }

  lemma {:induction false} CreateGrows(c: Cache, spec: Spec, refs: seq<BaseRef>)
    requires spec.payload !in c.realised
    ensures Grows(c, Create(c, spec, refs).0, [spec])
  {
    MakeGrows(c, spec, refs);
    assert HasPayload([spec], spec.payload) by { assert [spec][0] == spec; }
    hide HasPayload, HasHostBase;
  }

  lemma {:induction false} CreatedFaithful(c: Cache, spec: Spec, refs: seq<BaseRef>)
    requires spec.payload in c.specs && c.specs[spec.payload] == spec && spec.payload !in c.realised
    requires BasesRealised(c.realised, spec, |spec.bases|) && refs == MemosOf(c.realised, spec, |spec.bases|)
    ensures Faithful(Create(c, spec, refs).0, spec.payload)
  {
    MemosStay(c.realised, Create(c, spec, refs).0.realised, spec, |spec.bases|);
    hide HasHostBase;
  }

  ghost predicate Outcome(world: map<Payload, Spec>, env: Env, c: Cache, spec: Spec) {
    var (d, r) := Realise(env, c, spec);
    && Inv(world, env, d) && Grows(c, d, HostLineage(spec))
    && (match r
        case Err(error) => FirstError(env, spec) == Some(error)
        case Ok(ref) => FirstError(env, spec) == None
                        && spec.payload in d.realised && d.realised[spec.payload] == ref)
  }

  // Realising a registered declaration fails exactly as creating it from scratch would, never for
  // want of a registration, and otherwise gives the memoised object.
  lemma {:induction false} Realised(world: map<Payload, Spec>, env: Env, c: Cache, spec: Spec)
    requires Inv(world, env, c) && OneSpec(world, spec) && spec.payload in c.specs
    ensures Outcome(world, env, c, spec)
    decreases spec, |spec.bases| + 1
  {
    SpecRegistered(world, c, spec);
    if spec.payload !in c.realised {
      hide Inv, Grows;
      BasesAre(world, env, c, spec, |spec.bases|);
      AfterBases(world, env, c, spec);
    }
  }

  lemma {:induction false} SpecRegistered(world: map<Payload, Spec>, c: Cache, spec: Spec)
    requires Agrees(world, c.specs) && Closed(c.specs) && OneSpec(world, spec) && spec.payload in c.specs
    ensures c.specs[spec.payload] == spec
    ensures forall i :: 0 <= i < |spec.bases| && spec.bases[i].Host? ==> spec.bases[i].spec.payload in c.specs
  {
    assert HostLineage(spec)[0] == spec;
  }

  // What is left to do after the bases: nothing on an error, otherwise making the class.
  lemma {:induction false} AfterBases(world: map<Payload, Spec>, env: Env, c: Cache, spec: Spec)
    requires Inv(world, env, c) && OneSpec(world, spec) && spec.payload in c.specs
    requires c.specs[spec.payload] == spec && spec.payload !in c.realised
    requires BasesOutcome(world, env, c, spec, |spec.bases|)
    ensures Outcome(world, env, c, spec)
  {
    hide FirstError, Faithful, Inv, Grows, BasesOutcome, Outcome, OneSpec;
    if RealiseBases(env, c, spec, |spec.bases|).1.Err? || spec.payload in env.refused {
      AfterFailure(world, env, c, spec);
    } else {
      AfterOk(world, env, c, spec);
    }
  }

  lemma {:induction false} GrowsWithin(c: Cache, d: Cache, a: seq<Spec>, b: seq<Spec>)
    requires Grows(c, d, a) && forall s :: s in a ==> s in b
    ensures Grows(c, d, b)
  {
    assert forall p :: HasPayload(a, p) ==> HasPayload(b, p);
  }

  lemma {:induction false} AfterFailure(world: map<Payload, Spec>, env: Env, c: Cache, spec: Spec)
    requires spec.payload in c.specs && spec.payload !in c.realised
    requires BasesOutcome(world, env, c, spec, |spec.bases|)
    requires RealiseBases(env, c, spec, |spec.bases|).1.Err? || spec.payload in env.refused
    ensures Outcome(world, env, c, spec)
  {
    hide Inv, Grows, HasHostBase;
    BasesInLineage(spec);
    GrowsWithin(c, RealiseBases(env, c, spec, |spec.bases|).0, LineageOfBases(spec, |spec.bases|), HostLineage(spec));
    hide LineageOfBases, HostLineage, RealiseBases, BasesError, MemosOf;
  }

  lemma {:induction false} AfterOk(world: map<Payload, Spec>, env: Env, c: Cache, spec: Spec)
    requires Inv(world, env, c) && OneSpec(world, spec) && spec.payload in c.specs
    requires c.specs[spec.payload] == spec && spec.payload !in c.realised
    requires BasesOutcome(world, env, c, spec, |spec.bases|)
    requires RealiseBases(env, c, spec, |spec.bases|).1.Ok? && spec.payload !in env.refused
    ensures Outcome(world, env, c, spec)
  {
    var (c1, bases) := RealiseBases(env, c, spec, |spec.bases|);
    var lineage := LineageOfBases(spec, |spec.bases|);
    var d := Realise(env, c, spec).0;
    NotAmongBases(world, env, c, spec);
    hide OneSpec, MemosOf, HasHostBase, RealiseBases, BasesError, HostLineage, LineageOfBases;
    if spec.payload in env.unfinished {
      hide FirstError;
      MakeGrows(c1, spec, bases.value);
      hide Grows;
      MakeKeepsInv(world, env, c1, spec, bases.value);
    } else {
      hide Grows;
      CreateKeepsInv(world, env, c1, spec, bases.value);
    }
    hide Inv, Create, Make;
    GrowsTrans(c, c1, d, lineage, [spec]);
    BasesInLineage(spec);
    GrowsWithin(c, d, lineage + [spec], HostLineage(spec));
    ErrorOfBases(env, spec);
  }

  // Realising its bases leaves a declaration registered and not realised.
  lemma {:induction false} NotAmongBases(world: map<Payload, Spec>, env: Env, c: Cache, spec: Spec)
    requires OneSpec(world, spec) && spec.payload in c.specs && spec.payload !in c.realised
    requires BasesOutcome(world, env, c, spec, |spec.bases|)
    ensures var d := RealiseBases(env, c, spec, |spec.bases|).0;
            && d.specs == c.specs && spec.payload !in d.realised && d.created[spec.payload] == c.created[spec.payload]
  {
    NoOwnBase(world, spec);
    hide Inv, HasPayload, RealiseBases, BasesError, OneSpec, LineageOfBases;
  }

  lemma {:induction false} NoOwnBase(world: map<Payload, Spec>, spec: Spec)
    requires OneSpec(world, spec)
    ensures !HasPayload(LineageOfBases(spec, |spec.bases|), spec.payload)
  {
    if s :| s in LineageOfBases(spec, |spec.bases|) && s.payload == spec.payload {
      NotItsOwnBase(world, spec, s);
    }
  }

  lemma {:induction false} BasesInLineage(spec: Spec)
    ensures forall s :: s in LineageOfBases(spec, |spec.bases|) ==> s in HostLineage(spec)
    ensures forall s :: s in LineageOfBases(spec, |spec.bases|) + [spec] <==> s in HostLineage(spec)
  {
    assert HostLineage(spec)[0] == spec;
  }

  lemma {:induction false} ErrorOfBases(env: Env, spec: Spec)
    ensures FirstError(env, spec) ==
              (if BasesError(env, spec, |spec.bases|).Some? then BasesError(env, spec, |spec.bases|)
               else if spec.payload in env.refused then Some(Refused(spec.payload))
               else if spec.payload in env.unfinished then Some(StaticFailed(spec.payload)) else None)
  {
  }

  ghost predicate BasesOutcome(world: map<Payload, Spec>, env: Env, c: Cache, spec: Spec, n: nat)
    requires n <= |spec.bases|
  {
    var (d, r) := RealiseBases(env, c, spec, n);
    && Inv(world, env, d) && Grows(c, d, LineageOfBases(spec, n))
    && (match r
        case Err(error) => BasesError(env, spec, n) == Some(error)
        case Ok(refs) => BasesError(env, spec, n) == None
                         && BasesRealised(d.realised, spec, n) && refs == MemosOf(d.realised, spec, n))
  }

  lemma {:induction false} BasesAre(world: map<Payload, Spec>, env: Env, c: Cache, spec: Spec, n: nat)
    requires Inv(world, env, c) && OneSpec(world, spec) && n <= |spec.bases|
    requires forall i :: 0 <= i < |spec.bases| && spec.bases[i].Host? ==> spec.bases[i].spec.payload in c.specs
    ensures BasesOutcome(world, env, c, spec, n)
    decreases spec, n
  {
    hide Inv, Grows, BasesOutcome, Outcome, RealiseBases, Realise, OneSpec;
    if n == 0 {
      NoBases(world, env, c, spec);
    } else {
      BasesAre(world, env, c, spec, n - 1);
      BasesKeepRegistry(world, env, c, spec, n - 1);
      if RealiseBases(env, c, spec, n - 1).1.Ok? && spec.bases[n - 1].Host? {
        BaseKnown(world, spec, n - 1);
        Realised(world, env, RealiseBases(env, c, spec, n - 1).0, spec.bases[n - 1].spec);
        HostBaseStep(world, env, c, spec, n);
      } else {
        OtherBaseStep(world, env, c, spec, n);
      }
    }
  }

  lemma {:induction false} NoBases(world: map<Payload, Spec>, env: Env, c: Cache, spec: Spec)
    requires Inv(world, env, c)
    ensures BasesOutcome(world, env, c, spec, 0)
  {
    hide Inv;
  }

  lemma {:induction false} BasesKeepRegistry(world: map<Payload, Spec>, env: Env, c: Cache, spec: Spec, n: nat)
    requires n <= |spec.bases| && BasesOutcome(world, env, c, spec, n)
    ensures Inv(world, env, RealiseBases(env, c, spec, n).0)
    ensures RealiseBases(env, c, spec, n).0.specs == c.specs
  {
    hide Inv, RealiseBases;
  }

  lemma {:induction false} OtherBaseStep(world: map<Payload, Spec>, env: Env, c: Cache, spec: Spec, n: nat)
    requires 0 < n <= |spec.bases| && BasesOutcome(world, env, c, spec, n - 1)
    requires RealiseBases(env, c, spec, n - 1).1.Err? || spec.bases[n - 1].Imported?
    ensures BasesOutcome(world, env, c, spec, n)
  {
    hide Inv, Grows, FirstError, Realise, HostLineage, Size;
    assert forall s :: s in LineageOfBases(spec, n - 1) ==> s in LineageOfBases(spec, n);
    GrowsWithin(c, RealiseBases(env, c, spec, n - 1).0, LineageOfBases(spec, n - 1), LineageOfBases(spec, n));
    hide LineageOfBases;
  }

  lemma {:induction false} HostBaseStep(world: map<Payload, Spec>, env: Env, c: Cache, spec: Spec, n: nat)
    requires 0 < n <= |spec.bases| && spec.bases[n - 1].Host?
    requires BasesOutcome(world, env, c, spec, n - 1) && RealiseBases(env, c, spec, n - 1).1.Ok?
    requires Outcome(world, env, RealiseBases(env, c, spec, n - 1).0, spec.bases[n - 1].spec)
    ensures BasesOutcome(world, env, c, spec, n)
  {
    hide Inv, FirstError, Realise, HostLineage;
    var c1, base := RealiseBases(env, c, spec, n - 1).0, spec.bases[n - 1].spec;
    var c2, r := Realise(env, c1, base).0, Realise(env, c1, base).1;
    GrowsTrans(c, c1, c2, LineageOfBases(spec, n - 1), HostLineage(base));
    if r.Ok? {
      MemosStay(c1.realised, c2.realised, spec, n - 1);
    }
    hide Grows;
  }

  // ----- whole runs ----------------------------------------------------------------------------

  lemma {:induction false} LineageTrans(spec: Spec, s: Spec)
    requires s in HostLineage(spec)
    ensures forall t :: t in HostLineage(s) ==> t in HostLineage(spec)
    decreases spec, |spec.bases| + 1
  {
    if s != spec {
      LineageOfBasesTrans(spec, |spec.bases|, s);
    }
  }

  lemma {:induction false} LineageOfBasesTrans(spec: Spec, n: nat, s: Spec)
    requires n <= |spec.bases| && s in LineageOfBases(spec, n)
    ensures forall t :: t in HostLineage(s) ==> t in LineageOfBases(spec, n)
    decreases spec, n
  {
    if s in LineageOfBases(spec, n - 1) {
      LineageOfBasesTrans(spec, n - 1, s);
    } else {
      LineageTrans(spec.bases[n - 1].spec, s);
    }
  }

  lemma {:induction false} InternAgrees(world: map<Payload, Spec>, specs: map<Payload, Spec>, spec: Spec)
    requires Agrees(world, specs) && OneSpec(world, spec)
    ensures Agrees(world, Intern(specs, HostLineage(spec)))
  {
    var after := Intern(specs, HostLineage(spec));
    InternAll(specs, HostLineage(spec));
    hide Intern, HostLineage;
    forall p | p in after
      ensures p in world && world[p] == after[p] && OneSpec(world, after[p])
    {
      if p !in specs {
        LineageTrans(spec, after[p]);
      }
    }
  }

  lemma {:induction false} FaithfulUnder(c: Cache, d: Cache, p: Payload)
    requires p in c.realised && p in c.specs && p in d.specs && d.specs[p] == c.specs[p] && Faithful(c, p)
    requires d.realised == c.realised && d.heap == c.heap
    ensures Faithful(d, p)
  {
  }

  // More registrations change nothing about what is realised.
  lemma {:induction false} MoreSpecsKeepInv(world: map<Payload, Spec>, env: Env, c: Cache, d: Cache)
    requires Inv(world, env, c) && Agrees(world, d.specs) && Closed(d.specs)
    requires d == c.(specs := d.specs)
    requires forall p :: p in c.specs ==> p in d.specs && d.specs[p] == c.specs[p]
    ensures Inv(world, env, d)
  {
    hide FirstError, Closed, Agrees, Faithful;
    forall p | p in d.realised
      ensures p in d.specs && Faithful(d, p) && FirstError(env, d.specs[p]).None?
    {
      FaithfulUnder(c, d, p);
    }
  }

  lemma {:induction false} InternKeepsInv(world: map<Payload, Spec>, env: Env, c: Cache, spec: Spec)
    requires Inv(world, env, c) && OneSpec(world, spec)
    ensures Inv(world, env, c.(specs := Intern(c.specs, HostLineage(spec))))
  {
    InternAgrees(world, c.specs, spec);
    InternKeepsClosed(c.specs, spec);
    InternKeeps(c.specs, HostLineage(spec));
    hide Intern, HostLineage, OneSpec, Closed, Agrees, Faithful;
    MoreSpecsKeepInv(world, env, c, c.(specs := Intern(c.specs, HostLineage(spec))));
  }

  lemma {:induction false} AbsorbKeepsInv(world: map<Payload, Spec>, env: Env, c: Cache, classes: seq<Spec>)
    requires Inv(world, env, c) && forall i :: 0 <= i < |classes| ==> OneSpec(world, classes[i])
    ensures Inv(world, env, Absorb(c, classes))
  {
    hide Inv, OneSpec;
    if classes != [] {
      AbsorbKeepsInv(world, env, c, classes[..|classes| - 1]);
      InternKeepsInv(world, env, Absorb(c, classes[..|classes| - 1]), classes[|classes| - 1]);
    }
  }

  datatype Call = Absorbs(classes: seq<Spec>) | Realises(spec: Spec)

  function Run(env: Env, calls: seq<Call>): Cache {
    if calls == [] then NOTHING
    else
      match calls[|calls| - 1]
      case Absorbs(classes) => Absorb(Run(env, calls[..|calls| - 1]), classes)
      case Realises(spec) => Realise(env, Run(env, calls[..|calls| - 1]), spec).0
  }

  predicate Known(world: map<Payload, Spec>, call: Call) {
    match call
    case Absorbs(classes) => forall i :: 0 <= i < |classes| ==> OneSpec(world, classes[i])
    case Realises(spec) => OneSpec(world, spec)
  }

  predicate AllKnown(world: map<Payload, Spec>, calls: seq<Call>) {
    forall i :: 0 <= i < |calls| ==> Known(world, calls[i])
  }

  lemma {:induction false} RunKeepsInv(world: map<Payload, Spec>, env: Env, calls: seq<Call>)
    requires AllKnown(world, calls)
    ensures Inv(world, env, Run(env, calls))
  {
    if calls != [] {
      var before, last := Run(env, calls[..|calls| - 1]), calls[|calls| - 1];
      RunKeepsInv(world, env, calls[..|calls| - 1]);
      assert Known(world, last);
      hide Inv, OneSpec, Closed;
      match last {
        case Absorbs(classes) => AbsorbKeepsInv(world, env, before, classes);
        case Realises(spec) =>
          if spec.payload in before.specs {
            Realised(world, env, before, spec);
          }
      }
    }
  }

  // In every run, however calls interleave and fail: a registered declaration is never reported as
  // missing, a class whose static members do not fail is made at most once, and realising gives what
  // creating from scratch would give or fails as it would.
  lemma {:induction false} EveryRun(world: map<Payload, Spec>, env: Env, calls: seq<Call>, spec: Spec)
    requires AllKnown(world, calls) && OneSpec(world, spec)
    ensures var c := Run(env, calls);
            && (forall p :: p !in env.unfinished ==> c.created[p] <= 1)
            && Closed(c.specs)
            && (spec.payload !in c.specs ==> Realise(env, c, spec) == (c, Err(NotRegistered)))
            && (spec.payload in c.specs ==>
                 var (d, r) := Realise(env, c, spec);
                 && r != Err(NotRegistered)
                 && (r.Ok? <==> FirstError(env, spec).None?)
                 && (r.Err? ==> FirstError(env, spec) == Some(r.error))
                 && (r.Ok? ==> Represents(d.heap, r.value, spec)))
  {
    RunKeepsInv(world, env, calls);
    var c := Run(env, calls);
    hide Run, FirstError, Faithful, Makeable, OneSpec;
    if spec.payload in c.specs {
      hide Realise;
      OneRealise(world, env, c, spec);
    }
  }

  lemma {:induction false} OneRealise(world: map<Payload, Spec>, env: Env, c: Cache, spec: Spec)
    requires Inv(world, env, c) && OneSpec(world, spec) && spec.payload in c.specs
    ensures var (d, r) := Realise(env, c, spec);
            && r != Err(NotRegistered)
            && (r.Ok? <==> FirstError(env, spec).None?)
            && (r.Err? ==> FirstError(env, spec) == Some(r.error))
            && (r.Ok? ==> Represents(d.heap, r.value, spec))
  {
    hide Inv, Grows, OneSpec, FirstError, Realise;
    Realised(world, env, c, spec);
    NeverNotRegistered(env, spec);
    var (d, r) := Realise(env, c, spec);
    if r.Ok? {
      MemoRepresents(world, env, d, spec);
    }
  }

  // ----- classes with static members that fail ---------------------------------------------------

  // Such a class is not remembered, so it is made by every call that gets that far.
  lemma {:induction false} MadeAgain(world: map<Payload, Spec>, env: Env, c: Cache, spec: Spec)
    requires Inv(world, env, c) && OneSpec(world, spec) && spec.payload in c.specs
    requires spec.payload in env.unfinished && Makeable(env, spec)
    ensures var d := Realise(env, c, spec).0;
            && Inv(world, env, d) && d.specs == c.specs
            && d.created[spec.payload] == c.created[spec.payload] + 1
  {
    Realised(world, env, c, spec);
    SpecRegistered(world, c, spec);
    ErrorOfBases(env, spec);
    hide FirstError, Faithful, OneSpec, Agrees, Closed;
    assert spec.payload !in c.realised;
    hide Inv, Grows;
    BasesAre(world, env, c, spec, |spec.bases|);
    NotAmongBases(world, env, c, spec);
  }

  // Each class is made at most once in every run exactly if its static members do not fail after it
  // was made.
  lemma {:induction false} CreatedOnceIff(world: map<Payload, Spec>, env: Env, spec: Spec)
    requires OneSpec(world, spec)
    ensures (forall calls :: AllKnown(world, calls) ==> Run(env, calls).created[spec.payload] <= 1)
            <==> !(spec.payload in env.unfinished && Makeable(env, spec))
  {
    if spec.payload in env.unfinished && Makeable(env, spec) {
      var calls := [Absorbs([spec]), Realises(spec), Realises(spec)];
      assert AllKnown(world, calls);
      MadeTwice(world, env, spec);
    } else {
      forall calls | AllKnown(world, calls)
        ensures Run(env, calls).created[spec.payload] <= 1
      {
        MadeAtMostOnce(world, env, calls, spec);
      }
    }
  }

  lemma {:induction false} MadeAtMostOnce(world: map<Payload, Spec>, env: Env, calls: seq<Call>, spec: Spec)
    requires OneSpec(world, spec) && AllKnown(world, calls)
    requires spec.payload !in env.unfinished || !Makeable(env, spec)
    ensures Run(env, calls).created[spec.payload] <= 1
  {
    RunKeepsInv(world, env, calls);
    assert HostLineage(spec)[0] == spec;
    hide Run, Faithful, Makeable, FirstError, Closed;
  }

  lemma {:induction false} MadeTwice(world: map<Payload, Spec>, env: Env, spec: Spec)
    requires OneSpec(world, spec) && spec.payload in env.unfinished && Makeable(env, spec)
    ensures Run(env, [Absorbs([spec]), Realises(spec), Realises(spec)]).created[spec.payload] == 2
  {
    var first := [Absorbs([spec])];
    var second, third := first + [Realises(spec)], first + [Realises(spec), Realises(spec)];
    assert first[..0] == [] && second[..1] == first && third[..2] == second;
    assert third == [Absorbs([spec]), Realises(spec), Realises(spec)];
    var c := Absorb(NOTHING, [spec]);
    var d := Realise(env, c, spec).0;
    assert Run(env, first) == c by { hide Absorb; }
    assert Run(env, second) == d by { hide Absorb, Realise; }
    assert Run(env, third) == Realise(env, d, spec).0 by { hide Absorb, Realise; }
    hide Run, Realise;
    AbsorbKeepsInv(world, env, NOTHING, [spec]);
    AbsorbCloses(NOTHING, [spec]);
    assert [spec][0].payload in c.specs;
    AbsorbCreatesNothing(NOTHING, [spec]);
    hide Inv, Makeable, Absorb, OneSpec, Closed;
    MadeAgain(world, env, c, spec);
    MadeAgain(world, env, d, spec);
  }

  lemma {:induction false} AbsorbCreatesNothing(c: Cache, classes: seq<Spec>)
    ensures Absorb(c, classes) == c.(specs := Absorb(c, classes).specs)
  {
    if classes != [] {
      AbsorbCreatesNothing(c, classes[..|classes| - 1]);
    }
  }

  // What is remembered for a payload in a run is never replaced, and its object never changes.
  lemma {:induction false} MemoIsPermanent(world: map<Payload, Spec>, env: Env, calls: seq<Call>, more: seq<Call>)
    requires AllKnown(world, calls + more)
    ensures var c, d := Run(env, calls), Run(env, calls + more);
            && (forall p :: p in c.realised ==> p in d.realised && d.realised[p] == c.realised[p])
            && |c.heap| <= |d.heap| && d.heap[..|c.heap|] == c.heap
  {
    if more == [] {
      assert calls + more == calls;
    } else {
      var last := more[|more| - 1];
      var before := calls + more[..|more| - 1];
      assert (calls + more)[..|calls + more| - 1] == before && (calls + more)[|calls + more| - 1] == last;
      assert forall i :: 0 <= i < |before| ==> before[i] == (calls + more)[i];
      MemoIsPermanent(world, env, calls, more[..|more| - 1]);
      assert Known(world, last);
      var c, d, e := Run(env, calls), Run(env, before), Run(env, calls + more);
      CallKeepsMemo(world, env, before, last);
      assert e.heap[..|c.heap|] == e.heap[..|d.heap|][..|c.heap|];
    }
  }

  lemma {:induction false} CallKeepsMemo(world: map<Payload, Spec>, env: Env, calls: seq<Call>, call: Call)
    requires AllKnown(world, calls) && Known(world, call)
    ensures var c := Run(env, calls);
            var d := match call
              case Absorbs(classes) => Absorb(c, classes)
              case Realises(spec) => Realise(env, c, spec).0;
            && (forall p :: p in c.realised ==> p in d.realised && d.realised[p] == c.realised[p])
            && |c.heap| <= |d.heap| && d.heap[..|c.heap|] == c.heap
  {
    var c := Run(env, calls);
    RunKeepsInv(world, env, calls);
    hide Inv, OneSpec, Run, HasPayload;
    match call {
      case Absorbs(classes) => AbsorbCreatesNothing(c, classes);
      case Realises(spec) =>
        if spec.payload in c.specs {
          Realised(world, env, c, spec);
        }
    }
  }

  lemma {:induction false} NeverNotRegistered(env: Env, spec: Spec)
    ensures FirstError(env, spec) != Some(NotRegistered)
    decreases spec, |spec.bases| + 1
  {
    BasesNeverNotRegistered(env, spec, |spec.bases|);
  }

  lemma {:induction false} BasesNeverNotRegistered(env: Env, spec: Spec, n: nat)
    requires n <= |spec.bases|
    ensures BasesError(env, spec, n) != Some(NotRegistered)
    decreases spec, n
  {
    if n > 0 {
      BasesNeverNotRegistered(env, spec, n - 1);
      if spec.bases[n - 1].Host? {
        NeverNotRegistered(env, spec.bases[n - 1].spec);
      }
    }
  }

  // ----- what can go wrong with a declaration -----------------------------------------------------

  // The declaration itself is in order, whatever its host bases are.
  predicate Sound(env: Env, spec: Spec) {
    && spec.payload !in env.refused && spec.payload !in env.unfinished
    && forall i :: 0 <= i < |spec.bases| && spec.bases[i].Imported? ==>
         (spec.bases[i].module_, spec.bases[i].qualname) in env.importable
  }

  // A declaration can be created exactly if everything in its lineage is in order.
  lemma {:induction false} CreatableIff(env: Env, spec: Spec)
    ensures FirstError(env, spec).None? <==> forall s :: s in HostLineage(spec) ==> Sound(env, s)
    decreases spec, |spec.bases| + 1
  {
    BasesInOrder(env, spec, |spec.bases|);
    assert HostLineage(spec) == [spec] + LineageOfBases(spec, |spec.bases|);
    assert forall s :: s in HostLineage(spec) <==> s == spec || s in LineageOfBases(spec, |spec.bases|);
    hide BasesError, LineageOfBases, HostLineage;
    assert spec in HostLineage(spec);
  }

  lemma {:induction false} BasesInOrder(env: Env, spec: Spec, n: nat)
    requires n <= |spec.bases|
    ensures BasesError(env, spec, n).None? <==>
              && (forall s :: s in LineageOfBases(spec, n) ==> Sound(env, s))
              && (forall i :: 0 <= i < n && spec.bases[i].Imported? ==>
                   (spec.bases[i].module_, spec.bases[i].qualname) in env.importable)
    decreases spec, n
  {
    if n > 0 {
      BasesInOrder(env, spec, n - 1);
      OneMoreBase(spec, n);
      match spec.bases[n - 1] {
        case Host(base) => CreatableIff(env, base);
        case Imported(_, _) =>
      }
      hide LineageOfBases, HostLineage, FirstError, Sound;
    }
  }

  lemma {:induction false} OneMoreBase(spec: Spec, n: nat)
    requires 0 < n <= |spec.bases|
    ensures forall s :: s in LineageOfBases(spec, n) <==>
              || s in LineageOfBases(spec, n - 1)
              || (spec.bases[n - 1].Host? && s in HostLineage(spec.bases[n - 1].spec))
  {
    hide HostLineage;
  }

  // What a single base fails with.
  function BaseError(env: Env, base: Base): Option<Error> {
    match base
    case Host(spec) => FirstError(env, spec)
    case Imported(m, q) => if (m, q) !in env.importable then Some(NotAClass(m, q)) else None
  }

  // Base `i` is the first that fails.
  predicate BaseFailsFirst(env: Env, spec: Spec, i: nat) {
    && i < |spec.bases| && BaseError(env, spec.bases[i]).Some?
    && forall k :: 0 <= k < i ==> BaseError(env, spec.bases[k]).None?
  }

  // The first base that fails decides; with all bases there the class is refused or not, and then its static
  // members fail or not.
  lemma {:induction false} FirstErrorDecides(env: Env, spec: Spec)
    ensures forall i: nat :: BaseFailsFirst(env, spec, i) ==> FirstError(env, spec) == BaseError(env, spec.bases[i])
    ensures (forall i :: 0 <= i < |spec.bases| ==> BaseError(env, spec.bases[i]).None?) ==>
              FirstError(env, spec) ==
                (if spec.payload in env.refused then Some(Refused(spec.payload))
                 else if spec.payload in env.unfinished then Some(StaticFailed(spec.payload))
                 else None)
  {
    FirstBaseDecides(env, spec, |spec.bases|);
  }

  lemma {:induction false} FirstBaseDecides(env: Env, spec: Spec, n: nat)
    requires n <= |spec.bases|
    ensures forall i: nat :: i < n && BaseFailsFirst(env, spec, i) ==>
              BasesError(env, spec, n) == BaseError(env, spec.bases[i])
    ensures BasesError(env, spec, n).None? <==> forall i :: 0 <= i < n ==> BaseError(env, spec.bases[i]).None?
  {
    if n > 0 {
      FirstBaseDecides(env, spec, n - 1);
    }
  }

  // ----- the memo agrees with the declarations --------------------------------------------------

  // The object is the class of the declaration, down to every base of every base.
  predicate Represents(heap: seq<ClassObject>, ref: Ref, spec: Spec)
    decreases spec
  {
    var native := if exists i :: 0 <= i < |spec.bases| && spec.bases[i].Host? then 0 else 1;
    && ref < |heap| && heap[ref].payload == spec.payload
    && |heap[ref].bases| == native + |spec.bases|
    && (native == 1 ==> heap[ref].bases[0] == NativeBase)
    && (forall i :: 0 <= i < |spec.bases| ==>
         match spec.bases[i]
         case Imported(m, q) => heap[ref].bases[native + i] == Foreign(m, q)
         case Host(base) =>
           heap[ref].bases[native + i].Made? && Represents(heap, heap[ref].bases[native + i].ref, base))
  }

  lemma {:induction false} MemosAt(realised: map<Payload, Ref>, spec: Spec, n: nat)
    requires n <= |spec.bases|
    ensures |MemosOf(realised, spec, n)| == n
    ensures forall i :: 0 <= i < n ==> MemosOf(realised, spec, n)[i] == MemoOf(realised, spec.bases[i])
  {
    if n > 0 {
      MemosAt(realised, spec, n - 1);
    }
  }

  lemma {:induction false} InvParts(world: map<Payload, Spec>, env: Env, c: Cache, p: Payload)
    requires Inv(world, env, c) && p in c.realised
    ensures Agrees(world, c.specs) && Closed(c.specs) && p in c.specs && Faithful(c, p)
  {
  }

  lemma {:induction false} MemoRepresents(world: map<Payload, Spec>, env: Env, c: Cache, spec: Spec)
    requires Inv(world, env, c) && OneSpec(world, spec) && spec.payload in c.realised
    ensures Represents(c.heap, c.realised[spec.payload], spec)
    decreases spec
  {
    hide Inv, OneSpec, Agrees, Closed, MemosOf;
    InvParts(world, env, c, spec.payload);
    SpecRegistered(world, c, spec);
    MemosAt(c.realised, spec, |spec.bases|);
    assert HasHostBase(spec) <==> exists i :: 0 <= i < |spec.bases| && spec.bases[i].Host?;
    hide HasHostBase;
    forall i | 0 <= i < |spec.bases| && spec.bases[i].Host?
      ensures Represents(c.heap, c.realised[spec.bases[i].spec.payload], spec.bases[i].spec)
    {
      BaseKnown(world, spec, i);
      MemoRepresents(world, env, c, spec.bases[i].spec);
    }
  }

  // ----- the metaclass ---------------------------------------------------------------------------

  type Meta = nat

  // The loop keeps a candidate that is a subclass of the winner so far.
  function Winner(below: set<(Meta, Meta)>, type_: Meta, metas: seq<Meta>): Meta {
    if metas == [] then type_
    else
      var winner, last := Winner(below, type_, metas[..|metas| - 1]), metas[|metas| - 1];
      if (last, winner) in below then last else winner
  }

  // If one of the candidates is below all the others, the loop finds it whatever their order.
  lemma {:induction false} MostDerivedWins(below: set<(Meta, Meta)>, type_: Meta, metas: seq<Meta>, best: Meta)
    requires forall a, b :: (a, b) in below && (b, a) in below ==> a == b
    requires best == type_ || best in metas
    requires (best, type_) in below && forall m :: m in metas ==> (best, m) in below
    ensures Winner(below, type_, metas) == best
  {
    if metas != [] {
      var before, last := metas[..|metas| - 1], metas[|metas| - 1];
      assert metas == before + [last];
      WinnerIsCandidate(below, type_, before);
      if best == type_ || best in before {
        MostDerivedWins(below, type_, before, best);
      }
    }
  }

  lemma {:induction false} WinnerIsCandidate(below: set<(Meta, Meta)>, type_: Meta, metas: seq<Meta>)
    ensures Winner(below, type_, metas) == type_ || Winner(below, type_, metas) in metas
  {
    if metas != [] {
      WinnerIsCandidate(below, type_, metas[..|metas| - 1]);
    }
  }
}
