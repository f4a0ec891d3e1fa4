/** The process-wide module table and the registry of loaded extensions, updated in place. */
module NativeExtensions {
  import opened Wrappers
  import opened NativeLoad

  // Putting in the parents before one of them does not change what its name holds.
  lemma {:induction false} ParentUntouched(t: Table, parents: seq<Entry>, i: nat)
    requires Distinct(parents) && i < |parents|
    ensures At(Add(t, Missing(t, parents[..i])), parents[i].name) == At(t, parents[i].name)
  {
    var missing := Missing(t, parents[..i]);
    assert Distinct(parents[..i]);
    MissingEntries(t, parents[..i]);
    MissingDistinct(t, parents[..i]);
    assert forall e :: e in missing ==> e in parents[..i];
    hide Missing;
    AddAt(t, missing);
    hide Add, At, Distinct;
    forall j | 0 <= j < |missing|
      ensures missing[j].name != parents[i].name
    {
      assert missing[j] in parents[..i];
    }
  }

  lemma {:induction false} MissingNext(t: Table, parents: seq<Entry>, i: nat)
    requires i < |parents|
    ensures Missing(t, parents[..i + 1]) ==
              Missing(t, parents[..i]) + (if parents[i].name in t then [] else [parents[i]])
    ensures Add(t, Missing(t, parents[..i]) + [parents[i]]) ==
              Add(t, Missing(t, parents[..i]))[parents[i].name := parents[i].ref]
  {
    var missing := Missing(t, parents[..i]);
    assert parents[..i + 1][..i] == parents[..i];
    assert (missing + [parents[i]])[..|missing|] == missing;
  }

  class NativeExtensionRegistry {
    var table: Table
    var loaded: map<Name, Loaded>

    constructor (table: Table)
      ensures Snap() == State(table, map[])
    {
      this.table := table;
      loaded := map[];
    }

    ghost function Snap(): State
      reads this
    {
      State(table, loaded)
    }

    method RemoveIfSame(e: Entry, deletes: set<Name>) returns (ok: bool)
      modifies this`table
      ensures (table, ok) == NativeLoad.RemoveIfSame(old(table), e, deletes)
    {
      if e.name in table && table[e.name] == e.ref {
        if e.name in deletes {
          return false;
        }
        table := table - {e.name};
      }
      return true;
    }

    method Rollback(insertedParents: seq<Entry>, child: Option<Entry>, deletes: set<Name>) returns (ok: bool)
      modifies this`table
      ensures (table, ok) ==
              Undo(old(table), insertedParents + (if child.Some? then [child.value] else []), deletes)
    {
      ghost var entries := insertedParents + (if child.Some? then [child.value] else []);
      if child.Some? {
        assert entries[..|entries| - 1] == insertedParents;
        ok := RemoveIfSame(child.value, deletes);
        if !ok {
          return false;
        }
      } else {
        assert entries == insertedParents;
      }
      var i := |insertedParents|;
      assert insertedParents[..i] == insertedParents;
      while i > 0
        invariant 0 <= i <= |insertedParents|
        invariant Undo(table, insertedParents[..i], deletes) == Undo(old(table), entries, deletes)
      {
        i := i - 1;
        assert insertedParents[..i + 1][..i] == insertedParents[..i];
        ok := RemoveIfSame(insertedParents[i], deletes);
        if !ok {
          return false;
        }
      }
      return true;
    }

    method RegisterParents(parents: seq<Entry>, faults: Faults) returns (inserted: Option<seq<Entry>>)
      requires Distinct(parents)
      modifies this`table
      ensures (table, inserted) == Register(old(table), parents, faults)
    {
      var entries: seq<Entry> := [];
      assert Missing(table, parents[..0]) == [] && Add(table, []) == table;
      hide Missing, Add, Undo;
      for i := 0 to |parents|
        invariant i <= FirstRefused(old(table), parents, faults.sets)
        invariant entries == Missing(old(table), parents[..i]) && table == Add(old(table), entries)
      {
        var parent := parents[i];
        ParentUntouched(old(table), parents, i);
        MissingNext(old(table), parents, i);
        if parent.name in table {
          if table[parent.name] != parent.ref {
            assert !Acceptable(old(table), parent, faults.sets);
            assert i == FirstRefused(old(table), parents, faults.sets);
            var ok := Rollback(entries, None, faults.deletes);
            assert entries + [] == entries;
            return None;
          }
        } else {
          if parent.name in faults.sets {
            assert !Acceptable(old(table), parent, faults.sets);
            assert i == FirstRefused(old(table), parents, faults.sets);
            var ok := Rollback(entries, None, faults.deletes);
            assert entries + [] == entries;
            return None;
          }
          table := table[parent.name := parent.ref];
          entries := entries + [parent];
        }
        assert Acceptable(old(table), parent, faults.sets);
      }
      assert parents[..|parents|] == parents;
      return Some(entries);
    }

    method RunForeign(edits: seq<Edit>)
      modifies this`table
      ensures table == Apply(old(table), edits)
    {
      assert edits[0..] == edits;
      for i := 0 to |edits|
        invariant Apply(table, edits[i..]) == Apply(old(table), edits)
      {
        assert edits[i..][1..] == edits[i + 1..];
        match edits[i] {
          case Put(e) => table := table[e.name := e.ref];
          case Delete(name) => table := table - {name};
        }
      }
    }

    method ExecuteLoader(a: Attempt) returns (result: Option<Ref>)
      requires WellFormed(a)
      modifies this`table
      ensures (table, result) == Execute(old(table), a)
    {
      hide Missing, Add, Undo, Apply, FirstRefused;
      if !a.specOk {
        return None;
      }
      var inserted := RegisterParents(a.parents, a.faults);
      if inserted.None? {
        return None;
      }
      assert a.parents[..|a.parents|] == a.parents;
      assert inserted.value + [] == inserted.value;
      RunForeign(a.createEdits);
      if a.created.None? || a.dotted in a.faults.sets {
        var ok := Rollback(inserted.value, None, a.faults.deletes);
        return None;
      }
      var child := Entry(a.dotted, a.created.value);
      table := table[a.dotted := child.ref];
      RunForeign(a.executeEdits);
      if !a.executed {
        var ok := Rollback(inserted.value, Some(child), a.faults.deletes);
        return None;
      }
      return a.created;
    }

    // A loaded name answers from the registry; an occupied one is refused; otherwise the loader is
    // executed and the module recorded.
    method Load(r: Request) returns (result: Result<Ref, Error>)
      requires WellFormed(r.attempt)
      modifies this
      ensures (Snap(), result) == NativeLoad.Load(old(Snap()), r)
    {
      hide Execute;
      var dotted := r.attempt.dotted;
      if dotted in loaded {
        return if loaded[dotted].contents == r.contents then Ok(loaded[dotted].ref) else Err(DifferentContents);
      }
      if dotted in table {
        return Err(AmbientModule);
      }
      if !r.loaderOk {
        return Err(NoLoader);
      }
      var ref := ExecuteLoader(r.attempt);
      if ref.None? {
        return Err(LoadFailed);
      }
      loaded := loaded[dotted := Loaded(r.contents, ref.value)];
      return Ok(ref.value);
    }
  }
}
