/** The registry of host declarations and the memo of the classes made from them, updated in place. */
module ClassRealiser {
  import opened Wrappers
  import opened Classes

  class RealisationCache {
    var specs: map<Payload, Spec>
    var realised: map<Payload, Ref>
    var heap: seq<ClassObject>
    ghost var created: multiset<Payload>

    constructor ()
      ensures Snap() == NOTHING
    {
      specs, realised, heap := map[], map[], [];
      created := multiset{};
    }

    ghost function Snap(): Cache
      reads this
    {
      Cache(specs, realised, heap, created)
    }

    method AbsorbClass(spec: Spec)
      modifies this`specs
      ensures specs == Intern(old(specs), HostLineage(spec))
    {
      var lineage := HostLineage(spec);
      assert lineage[..|lineage|] == lineage;
      for i := 0 to |lineage|
        invariant specs == Intern(old(specs), lineage[..i])
      {
        assert lineage[..i + 1][..i] == lineage[..i];
        if lineage[i].payload !in specs {
          specs := specs[lineage[i].payload := lineage[i]];
        }
      }
    }

    method AbsorbModule(classes: seq<Spec>)
      modifies this`specs
      ensures Snap() == Absorb(old(Snap()), classes)
    {
      assert classes[..|classes|] == classes;
      for i := 0 to |classes|
        invariant Snap() == Absorb(old(Snap()), classes[..i])
      {
        assert classes[..i + 1][..i] == classes[..i];
        AbsorbClass(classes[i]);
      }
    }

    // The bases in declaration order, with the native base in front if no host base is among them.
    method Bases(env: Env, spec: Spec) returns (r: Result<seq<BaseRef>, Error>)
      modifies this
      ensures var (c, refs) := RealiseBases(env, old(Snap()), spec, |spec.bases|);
              && Snap() == c
              && r == match refs
                      case Err(error) => Err(error)
                      case Ok(value) => Ok((if HasHostBase(spec) then [] else [NativeBase]) + value)
      decreases spec, 0
    {
      hide Realise, HasHostBase;
      var bases: seq<BaseRef> := [];
      var hasHostBase := false;
      for i := 0 to |spec.bases|
        invariant RealiseBases(env, old(Snap()), spec, i) == (Snap(), Ok(bases))
        invariant hasHostBase <==> exists j :: 0 <= j < i && spec.bases[j].Host?
      {
        match spec.bases[i] {
          case Host(base) =>
            hasHostBase := true;
            var made := RealiseClass(env, base);
            if made.Err? {
              ErrorEnds(env, old(Snap()), spec, i + 1);
              return Err(made.error);
            }
            bases := bases + [Made(made.value)];
          case Imported(m, q) =>
            if (m, q) !in env.importable {
              ErrorEnds(env, old(Snap()), spec, i + 1);
              return Err(NotAClass(m, q));
            }
            bases := bases + [Foreign(m, q)];
        }
      }
      HostBaseMeans(spec);
      return Ok(if hasHostBase then bases else [NativeBase] + bases);
    }

    method RealiseClass(env: Env, spec: Spec) returns (r: Result<Ref, Error>)
      modifies this
      ensures (Snap(), r) == Realise(env, old(Snap()), spec)
      decreases spec, 1
    {
      hide RealiseBases, HasHostBase;
      if spec.payload !in specs {
        return Err(NotRegistered);
      }
      if spec.payload in realised {
        return Ok(realised[spec.payload]);
      }
      var bases := Bases(env, spec);
      if bases.Err? {
        return Err(bases.error);
      }
      if spec.payload in env.refused {
        return Err(Refused(spec.payload));
      }
      var ref := |heap|;
      heap := heap + [ClassObject(spec.payload, bases.value)];
      created := created + multiset{spec.payload};
      if spec.payload in env.unfinished {
        return Err(StaticFailed(spec.payload));
      }
      realised := realised[spec.payload := ref];
      return Ok(ref);
    }
  }

  lemma {:induction false} HostBaseMeans(spec: Spec)
    ensures HasHostBase(spec) <==> exists j :: 0 <= j < |spec.bases| && spec.bases[j].Host?
    ensures forall value: seq<BaseRef> :: [] + value == value
  {
  }

  lemma {:induction false} ErrorEnds(env: Env, c: Cache, spec: Spec, n: nat)
    requires n <= |spec.bases| && RealiseBases(env, c, spec, n).1.Err?
    ensures RealiseBases(env, c, spec, |spec.bases|) == RealiseBases(env, c, spec, n)
    decreases |spec.bases| - n
  {
    if n < |spec.bases| {
      ErrorEnds(env, c, spec, n + 1);
    }
  }

  // The metaclass of a class with these bases' metaclasses.
  method Metaclass(below: set<(Meta, Meta)>, type_: Meta, metas: seq<Meta>) returns (winner: Meta)
    ensures winner == Winner(below, type_, metas)
  {
    winner := type_;
    assert metas[..|metas|] == metas;
    for i := 0 to |metas|
      invariant winner == Winner(below, type_, metas[..i])
    {
      assert metas[..i + 1][..i] == metas[..i];
      if (metas[i], winner) in below {
        winner := metas[i];
      }
    }
  }
}
