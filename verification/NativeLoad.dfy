/**
 Loading a native extension through the process-wide module table.  A load puts the missing parents
 and the module itself into the table, and takes its own entries out again when it fails.  Creating
 and executing the module runs foreign code, which may edit the table as well.
 */
module NativeLoad {
  import opened Wrappers

  type Name = string
  type Ref = nat
  type Table = map<Name, Ref>

  datatype Entry = Entry(name: Name, ref: Ref)

  datatype Edit = Put(entry: Entry) | Delete(name: Name)

  // Names for which the table refuses an insertion or a deletion.
  datatype Faults = Faults(sets: set<Name>, deletes: set<Name>)

  // One attempt to execute a loader: the parents of the module, shortest name first, and what the
  // import machinery and the module's own code do.
  datatype Attempt = Attempt(
    dotted: Name, parents: seq<Entry>, faults: Faults, specOk: bool,
    created: Option<Ref>, createEdits: seq<Edit>, executed: bool, executeEdits: seq<Edit>)

  predicate Distinct(entries: seq<Entry>) {
    forall i, j :: 0 <= i < j < |entries| ==> entries[i].name != entries[j].name
  }

  predicate WellFormed(a: Attempt) {
    Distinct(a.parents) && forall i :: 0 <= i < |a.parents| ==> a.parents[i].name != a.dotted
  }

  function At(t: Table, name: Name): Option<Ref> {
    if name in t then Some(t[name]) else None
  }

  function ApplyOne(t: Table, edit: Edit): Table {
    match edit
    case Put(e) => t[e.name := e.ref]
    case Delete(name) => t - {name}
  }

  function Apply(t: Table, edits: seq<Edit>): Table
    decreases |edits|
  {
    if edits == [] then t else Apply(ApplyOne(t, edits[0]), edits[1..])
  }

  function Add(t: Table, entries: seq<Entry>): Table {
    if entries == [] then t
    else
      var last := entries[|entries| - 1];
      Add(t, entries[..|entries| - 1])[last.name := last.ref]
  }

  function RemoveIfSame(t: Table, e: Entry, deletes: set<Name>): (Table, bool) {
    if At(t, e.name) != Some(e.ref) then (t, true)
    else if e.name in deletes then (t, false)
    else (t - {e.name}, true)
  }

  // The last entry is taken out first; a refused deletion leaves the rest where it is.
  function Undo(t: Table, entries: seq<Entry>, deletes: set<Name>): (Table, bool) {
    if entries == [] then (t, true)
    else
      var (t1, ok) := RemoveIfSame(t, entries[|entries| - 1], deletes);
      if ok then Undo(t1, entries[..|entries| - 1], deletes) else (t1, false)
  }

  // The parents that are not in the table yet.
  function Missing(t: Table, parents: seq<Entry>): seq<Entry> {
    if parents == [] then []
    else
      var last := parents[|parents| - 1];
      Missing(t, parents[..|parents| - 1]) + (if last.name in t then [] else [last])
  }

  predicate Acceptable(t: Table, parent: Entry, sets: set<Name>) {
    if parent.name in t then t[parent.name] == parent.ref else parent.name !in sets
  }

  function FirstRefused(t: Table, parents: seq<Entry>, sets: set<Name>): (n: nat)
    ensures n <= |parents|
    ensures forall i :: 0 <= i < n ==> Acceptable(t, parents[i], sets)
    ensures n < |parents| ==> !Acceptable(t, parents[n], sets)
    decreases |parents|
  {
    if parents == [] then 0
    else
      var n := FirstRefused(t, parents[..|parents| - 1], sets);
      if n < |parents| - 1 then n
      else if Acceptable(t, parents[|parents| - 1], sets) then |parents|
      else |parents| - 1
  }

  function Register(t: Table, parents: seq<Entry>, faults: Faults): (Table, Option<seq<Entry>>) {
    var n := FirstRefused(t, parents, faults.sets);
    var inserted := Missing(t, parents[..n]);
    if n == |parents| then (Add(t, inserted), Some(inserted))
    else (Undo(Add(t, inserted), inserted, faults.deletes).0, None)
  }

  // The table when registration is done, the entries then to be undone on failure, and whether the
  // module was created, inserted and executed.
  function Attempted(t: Table, a: Attempt): (Table, seq<Entry>, Option<Ref>) {
    var inserted := Missing(t, a.parents);
    var t1 := Apply(Add(t, inserted), a.createEdits);
    if a.created.None? || a.dotted in a.faults.sets then (t1, inserted, None)
    else
      var child := Entry(a.dotted, a.created.value);
      (Apply(t1[a.dotted := child.ref], a.executeEdits), inserted + [child],
       if a.executed then a.created else None)
  }

  predicate Registers(t: Table, a: Attempt) {
    a.specOk && forall i :: 0 <= i < |a.parents| ==> Acceptable(t, a.parents[i], a.faults.sets)
  }

  function Execute(t: Table, a: Attempt): (Table, Option<Ref>) {
    if !a.specOk then (t, None)
    else
      var (t1, inserted) := Register(t, a.parents, a.faults);
      if inserted.None? then (t1, None)
      else
        var (t2, entries, result) := Attempted(t, a);
        if result.Some? then (t2, result) else (Undo(t2, entries, a.faults.deletes).0, None)
  }

  // ----- the transaction ---------------------------------------------------------------------

  lemma {:induction false} AddAt(t: Table, entries: seq<Entry>)
    requires Distinct(entries)
    ensures forall i :: 0 <= i < |entries| ==> At(Add(t, entries), entries[i].name) == Some(entries[i].ref)
    ensures forall name :: (forall i :: 0 <= i < |entries| ==> entries[i].name != name) ==>
              At(Add(t, entries), name) == At(t, name)
  {
    if entries != [] {
      AddAt(t, entries[..|entries| - 1]);
    }
  }

  // Undoing takes out exactly the entries that are still the same object.
  predicate Holds(t: Table, entries: seq<Entry>, name: Name) {
    exists i :: 0 <= i < |entries| && entries[i].name == name && At(t, name) == Some(entries[i].ref)
  }

  lemma {:induction false} UndoRemovesExactly(t: Table, entries: seq<Entry>, deletes: set<Name>)
    requires Distinct(entries)
    requires forall i :: 0 <= i < |entries| ==> entries[i].name !in deletes
    ensures Undo(t, entries, deletes).1
    ensures forall name :: At(Undo(t, entries, deletes).0, name) ==
              if Holds(t, entries, name) then None else At(t, name)
  {
    if entries != [] {
      var last, rest := entries[|entries| - 1], entries[..|entries| - 1];
      var t1 := RemoveIfSame(t, last, deletes).0;
      UndoRemovesExactly(t1, rest, deletes);
      forall name
        ensures At(Undo(t, entries, deletes).0, name) == if Holds(t, entries, name) then None else At(t, name)
      {
        HoldsSnoc(t, entries, name);
        assert name != last.name ==> At(t1, name) == At(t, name);
        assert !Holds(t1, rest, last.name);
      }
    }
  }

  lemma {:induction false} HoldsSnoc(t: Table, entries: seq<Entry>, name: Name)
    requires entries != []
    ensures Holds(t, entries, name) <==>
              || Holds(t, entries[..|entries| - 1], name)
              || (entries[|entries| - 1].name == name && At(t, name) == Some(entries[|entries| - 1].ref))
  {
    var last, rest := entries[|entries| - 1], entries[..|entries| - 1];
    if Holds(t, rest, name) {
      var i :| 0 <= i < |rest| && rest[i].name == name && At(t, name) == Some(rest[i].ref);
      assert entries[i] == rest[i];
    }
    if Holds(t, entries, name) {
      var i :| 0 <= i < |entries| && entries[i].name == name && At(t, name) == Some(entries[i].ref);
      assert i < |rest| ==> rest[i] == entries[i];
    }
  }

  // A name whose deletion is refused keeps its entry, so a rollback that meets one is not complete.
  lemma {:induction false} UndoKeepsUndeletable(t: Table, entries: seq<Entry>, deletes: set<Name>, name: Name)
    requires name in deletes
    ensures At(Undo(t, entries, deletes).0, name) == At(t, name)
  {
    if entries != [] {
      var (t1, ok) := RemoveIfSame(t, entries[|entries| - 1], deletes);
      if ok {
        UndoKeepsUndeletable(t1, entries[..|entries| - 1], deletes, name);
      }
    }
  }

  // The entry is still the same object and its deletion is refused.
  predicate Refuses(t: Table, e: Entry, deletes: set<Name>) {
    At(t, e.name) == Some(e.ref) && e.name in deletes
  }

  // Entries from place `k` on, at which the last refusal stands; the first place if there is none.
  predicate StopsAt(t: Table, entries: seq<Entry>, deletes: set<Name>, k: nat) {
    && k <= |entries|
    && (forall i :: k <= i < |entries| ==> !Refuses(t, entries[i], deletes))
    && (k > 0 ==> Refuses(t, entries[k - 1], deletes))
  }

  // A rollback goes from the last entry to the first and stops at the first refusal it meets: what is behind
  // that entry is taken out, and that entry and all before it stay.
  lemma {:induction false} UndoStopsAtRefusal(t: Table, entries: seq<Entry>, deletes: set<Name>, k: nat)
    requires Distinct(entries) && StopsAt(t, entries, deletes, k)
    ensures Undo(t, entries, deletes).1 <==> k == 0
    ensures forall name :: At(Undo(t, entries, deletes).0, name) ==
              if Holds(t, entries[k..], name) then None else At(t, name)
    decreases |entries|
  {
    if k == |entries| {
      assert entries[k..] == [];
    } else {
      var last, rest := entries[|entries| - 1], entries[..|entries| - 1];
      var t1 := if At(t, last.name) == Some(last.ref) then t - {last.name} else t;
      assert Undo(t, entries, deletes) == Undo(t1, rest, deletes);
      hide Undo;
      LaterStays(t, t1, entries, deletes, k);
      UndoStopsAtRefusal(t1, rest, deletes, k);
      hide StopsAt, Holds;
    }
  }

  // Taking out the last entry changes nothing about the others.
  lemma {:induction false} LaterStays(t: Table, t1: Table, entries: seq<Entry>, deletes: set<Name>, k: nat)
    requires Distinct(entries) && k < |entries| && StopsAt(t, entries, deletes, k)
    requires var last := entries[|entries| - 1];
             t1 == if At(t, last.name) == Some(last.ref) then t - {last.name} else t
    ensures Distinct(entries[..|entries| - 1]) && StopsAt(t1, entries[..|entries| - 1], deletes, k)
    ensures forall name ::
              (if Holds(t1, entries[..|entries| - 1][k..], name) then None else At(t1, name)) ==
              (if Holds(t, entries[k..], name) then None else At(t, name))
  {
    var last, rest, tail := entries[|entries| - 1], entries[..|entries| - 1], entries[k..];
    assert tail[..|tail| - 1] == rest[k..] && tail[|tail| - 1] == last;
    assert forall name :: name != last.name ==> At(t1, name) == At(t, name);
    assert forall i :: 0 <= i < |rest| ==> rest[i] == entries[i] && rest[i].name != last.name;
    assert forall i :: 0 <= i < |rest[k..]| ==> rest[k..][i] == entries[k + i];
    forall name
      ensures (if Holds(t1, rest[k..], name) then None else At(t1, name)) ==
              (if Holds(t, tail, name) then None else At(t, name))
    {
      HoldsSnoc(t, tail, name);
      if name == last.name {
        assert !Holds(t1, rest[k..], name) && !Holds(t, rest[k..], name);
      } else {
        assert Holds(t1, rest[k..], name) <==> Holds(t, rest[k..], name);
      }
    }
  }

  lemma {:induction false} MissingEntries(t: Table, parents: seq<Entry>)
    ensures forall e :: e in Missing(t, parents) <==> e in parents && e.name !in t
  {
    if parents != [] {
      MissingEntries(t, parents[..|parents| - 1]);
      assert parents == parents[..|parents| - 1] + [parents[|parents| - 1]];
    }
  }

  lemma {:induction false} MissingDistinct(t: Table, parents: seq<Entry>)
    requires Distinct(parents)
    ensures Distinct(Missing(t, parents))
  {
    if parents != [] {
      var rest := parents[..|parents| - 1];
      MissingDistinct(t, rest);
      MissingEntries(t, rest);
      assert forall i :: 0 <= i < |Missing(t, rest)| ==> Missing(t, rest)[i] in rest;
    }
  }
  predicate Touches(edit: Edit, name: Name) {
    (if edit.Put? then edit.entry.name else edit.name) == name
  }

  predicate Involved(a: Attempt, name: Name) {
    name == a.dotted || exists i :: 0 <= i < |a.parents| && a.parents[i].name == name
  }

  // The edits leave the names of the load alone.
  predicate Elsewhere(edits: seq<Edit>, a: Attempt) {
    forall i :: 0 <= i < |edits| ==> !Involved(a, if edits[i].Put? then edits[i].entry.name else edits[i].name)
  }

  lemma {:induction false} ApplyAt(t: Table, u: Table, edits: seq<Edit>, name: Name)
    ensures (forall i :: 0 <= i < |edits| ==> !Touches(edits[i], name)) ==> At(Apply(t, edits), name) == At(t, name)
    ensures At(t, name) == At(u, name) ==> At(Apply(t, edits), name) == At(Apply(u, edits), name)
    decreases |edits|
  {
    if edits != [] {
      ApplyAt(ApplyOne(t, edits[0]), ApplyOne(u, edits[0]), edits[1..], name);
      if forall i :: 0 <= i < |edits| ==> !Touches(edits[i], name) {
        assert !Touches(edits[0], name);
        assert forall i :: 0 <= i < |edits[1..]| ==> edits[1..][i] == edits[i + 1];
      }
    }
  }

  lemma {:induction false} ApplyAppend(t: Table, a: seq<Edit>, b: seq<Edit>)
    ensures Apply(Apply(t, a), b) == Apply(t, a + b)
    decreases |a|
  {
    if a == [] {
      assert a + b == b;
    } else {
      assert (a + b)[0] == a[0] && (a + b)[1..] == a[1..] + b;
      ApplyAppend(ApplyOne(t, a[0]), a[1..], b);
    }
  }

  // What foreign code had done to the table by the end of the attempt.
  function Interference(t: Table, a: Attempt): seq<Edit> {
    if !Registers(t, a) then []
    else if a.created.None? || a.dotted in a.faults.sets then a.createEdits
    else a.createEdits + a.executeEdits
  }

  // The entries the attempt had put into the table.
  function Inserted(t: Table, a: Attempt): seq<Entry> {
    if !a.specOk then []
    else if !Registers(t, a) then Missing(t, a.parents[..FirstRefused(t, a.parents, a.faults.sets)])
    else Attempted(t, a).1
  }

  // The table just before the rollback.
  function Halted(t: Table, a: Attempt): Table {
    if Registers(t, a) then Attempted(t, a).0 else Add(t, Inserted(t, a))
  }

  lemma {:induction false} ExecuteShape(t: Table, a: Attempt)
    ensures Execute(t, a).1.Some? <==> Registers(t, a) && Attempted(t, a).2.Some?
    ensures Execute(t, a).1.Some? ==> Execute(t, a) == (Halted(t, a), a.created)
    ensures Execute(t, a).1.None? ==> Execute(t, a).0 == Undo(Halted(t, a), Inserted(t, a), a.faults.deletes).0
  {
  }

  lemma {:induction false} MissingParents(t: Table, a: Attempt, n: nat)
    requires WellFormed(a) && n <= |a.parents|
    ensures Distinct(Missing(t, a.parents[..n]))
    ensures forall e :: e in Missing(t, a.parents[..n]) ==>
              e in a.parents && e.name !in t && Involved(a, e.name) && e.name != a.dotted
  {
    MissingEntries(t, a.parents[..n]);
    MissingDistinct(t, a.parents[..n]);
    hide Missing;
    forall e | e in Missing(t, a.parents[..n])
      ensures e in a.parents && e.name !in t && Involved(a, e.name) && e.name != a.dotted
    {
      var i :| 0 <= i < |a.parents| && a.parents[i] == e;
    }
  }

  lemma {:induction false} DistinctSnoc(entries: seq<Entry>, last: Entry)
    requires Distinct(entries) && forall e :: e in entries ==> e.name != last.name
    ensures Distinct(entries + [last])
  {
    assert forall i :: 0 <= i < |entries| ==> entries[i] in entries;
  }

  predicate Enters(t: Table, a: Attempt, e: Entry) {
    Involved(a, e.name) && (e.name == a.dotted || (e in a.parents && e.name !in t))
  }

  lemma {:induction false} InsertedEntries(t: Table, a: Attempt)
    requires WellFormed(a)
    ensures Distinct(Inserted(t, a))
    ensures forall e :: e in Inserted(t, a) ==> Enters(t, a, e)
  {
    if Registers(t, a) {
      hide Registers, Distinct, Missing;
      AttemptedEntries(t, a);
    } else if a.specOk {
      hide Registers, Distinct;
      MissingParents(t, a, FirstRefused(t, a.parents, a.faults.sets));
      hide FirstRefused, Missing, Involved;
    }
  }

  lemma {:induction false} AttemptedEntries(t: Table, a: Attempt)
    requires WellFormed(a)
    ensures Distinct(Attempted(t, a).1)
    ensures forall e :: e in Attempted(t, a).1 ==> Enters(t, a, e)
  {
    assert Involved(a, a.dotted);
    hide Missing, Add, Apply, Involved, WellFormed, Distinct;
    MissingParents(t, a, |a.parents|);
    assert a.parents[..|a.parents|] == a.parents;
    if a.created.Some? {
      DistinctSnoc(Missing(t, a.parents), Entry(a.dotted, a.created.value));
    }
  }

  // Whatever foreign code does, a failed attempt ends by taking out exactly the entries it put in
  // that are still the same object.
  lemma {:induction false} FailureRemovesExactly(t: Table, a: Attempt, name: Name)
    requires WellFormed(a) && Execute(t, a).1.None?
    requires forall e :: e in Inserted(t, a) ==> e.name !in a.faults.deletes
    ensures At(Execute(t, a).0, name) ==
              if Holds(Halted(t, a), Inserted(t, a), name) then None else At(Halted(t, a), name)
  {
    ExecuteShape(t, a);
    InsertedEntries(t, a);
    hide Execute, Inserted, Halted, Undo, Distinct, Involved;
    assert forall i :: 0 <= i < |Inserted(t, a)| ==> Inserted(t, a)[i] in Inserted(t, a);
    UndoRemovesExactly(Halted(t, a), Inserted(t, a), a.faults.deletes);
  }

  // The entries of a halted attempt as foreign code working elsewhere leaves them.
  lemma {:induction false} HaltedAt(t: Table, a: Attempt, name: Name)
    requires WellFormed(a) && Elsewhere(a.createEdits, a) && Elsewhere(a.executeEdits, a)
    ensures Holds(Halted(t, a), Inserted(t, a), name) <==> exists e :: e in Inserted(t, a) && e.name == name
    ensures (forall e :: e in Inserted(t, a) ==> e.name != name) ==>
              At(Halted(t, a), name) == At(Apply(t, Interference(t, a)), name)
    ensures forall e :: e in Inserted(t, a) && e.name == name ==> At(Halted(t, a), name) == Some(e.ref)
  {
    InsertedEntries(t, a);
    HaltedIsAdded(t, a, name);
    AddAt(t, Inserted(t, a));
    var inserted, u := Inserted(t, a), Halted(t, a);
    hide Inserted, Halted, Add, Apply, Interference, Involved, Distinct;
    if e :| e in inserted && e.name == name {
      var i :| 0 <= i < |inserted| && inserted[i] == e;
      assert Involved(a, name);
      assert At(u, name) == Some(e.ref);
      assert Holds(u, inserted, name);
    }
  }

  lemma {:induction false} UntouchedElsewhere(edits: seq<Edit>, a: Attempt, name: Name)
    requires Elsewhere(edits, a) && Involved(a, name)
    ensures forall i :: 0 <= i < |edits| ==> !Touches(edits[i], name)
  {
  }

  lemma {:induction false} HaltedIsAdded(t: Table, a: Attempt, name: Name)
    requires WellFormed(a) && Elsewhere(a.createEdits, a) && Elsewhere(a.executeEdits, a)
    ensures Involved(a, name) ==> At(Halted(t, a), name) == At(Add(t, Inserted(t, a)), name)
    ensures At(Add(t, Inserted(t, a)), name) == At(t, name) ==>
              At(Halted(t, a), name) == At(Apply(t, Interference(t, a)), name)
  {
    hide WellFormed, Elsewhere, Missing, Add, Involved, FirstRefused;
    if Registers(t, a) {
      if a.created.None? || a.dotted in a.faults.sets {
        hide Registers, Apply;
        if Involved(a, name) {
          UntouchedElsewhere(a.createEdits, a, name);
        }
        ApplyAt(Add(t, Missing(t, a.parents)), t, a.createEdits, name);
      } else {
        ChildIsAdded(t, a, name);
      }
    } else {
      assert Apply(t, []) == t;
    }
  }

  lemma {:induction false} ChildIsAdded(t: Table, a: Attempt, name: Name)
    requires Elsewhere(a.createEdits, a) && Elsewhere(a.executeEdits, a)
    requires a.created.Some? && a.dotted !in a.faults.sets
    ensures Involved(a, name) ==> At(Attempted(t, a).0, name) == At(Add(t, Attempted(t, a).1), name)
    ensures At(Add(t, Attempted(t, a).1), name) == At(t, name) ==>
              At(Attempted(t, a).0, name) == At(Apply(t, a.createEdits + a.executeEdits), name)
  {
    var missing, child := Missing(t, a.parents), Entry(a.dotted, a.created.value);
    var added := Add(t, missing);
    assert (missing + [child])[..|missing|] == missing;
    assert Add(t, missing + [child]) == added[a.dotted := child.ref];
    hide Missing, Add, Apply, Elsewhere;
    ApplyAppend(t, a.createEdits, a.executeEdits);
    var t1, u1 := Apply(added, a.createEdits), Apply(t, a.createEdits);
    ApplyAt(added, t, a.createEdits, name);
    ApplyAt(t1[a.dotted := child.ref], u1, a.executeEdits, name);
    if Involved(a, name) {
      UntouchedElsewhere(a.createEdits, a, name);
      UntouchedElsewhere(a.executeEdits, a, name);
      ApplyAt(t, t, a.createEdits, name);
      ApplyAt(u1, t, a.executeEdits, name);
    }
    hide Involved, Touches;
  }

  lemma {:induction false} InterferenceElsewhere(t: Table, a: Attempt, name: Name)
    requires Elsewhere(a.createEdits, a) && Elsewhere(a.executeEdits, a) && Involved(a, name)
    ensures At(Apply(t, Interference(t, a)), name) == At(t, name)
  {
    UntouchedElsewhere(a.createEdits, a, name);
    UntouchedElsewhere(a.executeEdits, a, name);
    assert Apply(t, []) == t;
    ApplyAt(t, t, a.createEdits, name);
    ApplyAppend(t, a.createEdits, a.executeEdits);
    ApplyAt(Apply(t, a.createEdits), t, a.executeEdits, name);
  }

  // A successful attempt adds the missing parents and the module, and nothing else of its own.
  lemma {:induction false} SuccessAddsExactly(t: Table, a: Attempt, name: Name)
    requires WellFormed(a) && Elsewhere(a.createEdits, a) && Elsewhere(a.executeEdits, a)
    requires Execute(t, a).1.Some?
    ensures At(Execute(t, a).0, a.dotted) == Execute(t, a).1 == a.created
    ensures forall i :: 0 <= i < |a.parents| ==> At(Execute(t, a).0, a.parents[i].name) == Some(a.parents[i].ref)
    ensures !Involved(a, name) ==> At(Execute(t, a).0, name) == At(Apply(t, Interference(t, a)), name)
  {
    ExecuteShape(t, a);
    InsertedEntries(t, a);
    MissingEntries(t, a.parents);
    assert Inserted(t, a) == Missing(t, a.parents) + [Entry(a.dotted, a.created.value)];
    forall i | 0 <= i < |a.parents|
      ensures At(Halted(t, a), a.parents[i].name) == Some(a.parents[i].ref)
    {
      var parent := a.parents[i];
      assert Acceptable(t, parent, a.faults.sets);
      assert Involved(a, parent.name);
      HaltedAt(t, a, parent.name);
      InterferenceElsewhere(t, a, parent.name);
      if parent.name !in t {
        assert parent in Missing(t, a.parents);
      } else {
        assert forall e :: e in Inserted(t, a) ==> e.name != parent.name;
      }
    }
    HaltedAt(t, a, a.dotted);
    HaltedAt(t, a, name);
  }

  // Every failure, at a parent, at creation, at insertion or at execution, leaves the table as if
  // only the foreign code working elsewhere had run, exactly when the table lets the entries of
  // the attempt be deleted.
  lemma {:induction false} FailureRestoresIff(t: Table, a: Attempt)
    requires WellFormed(a) && Elsewhere(a.createEdits, a) && Elsewhere(a.executeEdits, a)
    requires a.dotted !in t && Execute(t, a).1.None?
    ensures Execute(t, a).0 == Apply(t, Interference(t, a)) <==>
              forall e :: e in Inserted(t, a) ==> e.name !in a.faults.deletes
  {
    ExecuteShape(t, a);
    InsertedEntries(t, a);
    var after, goal := Execute(t, a).0, Apply(t, Interference(t, a));
    forall e | e in Inserted(t, a)
      ensures At(goal, e.name) == None && At(Halted(t, a), e.name) == Some(e.ref)
    {
      InterferenceElsewhere(t, a, e.name);
      HaltedAt(t, a, e.name);
    }
    if e :| e in Inserted(t, a) && e.name in a.faults.deletes {
      UndoKeepsUndeletable(Halted(t, a), Inserted(t, a), a.faults.deletes, e.name);
      assert At(after, e.name) != At(goal, e.name);
    } else {
      forall name
        ensures At(after, name) == At(goal, name)
      {
        FailureRemovesExactly(t, a, name);
        HaltedAt(t, a, name);
      }
      SameTable(after, goal);
    }
  }

  lemma {:induction false} SameTable(t: Table, u: Table)
    requires forall name :: At(t, name) == At(u, name)
    ensures t == u
  {
    forall name
      ensures name in t <==> name in u
      ensures name in t ==> t[name] == u[name]
    {
      assert At(t, name) == At(u, name);
    }
  }

  // ----- the registry of loaded extensions ---------------------------------------------------

  type Contents = string

  datatype Loaded = Loaded(contents: Contents, ref: Ref)

  datatype State = State(table: Table, loaded: map<Name, Loaded>)

  datatype Request = Request(attempt: Attempt, contents: Contents, loaderOk: bool)

  datatype Error = DifferentContents | AmbientModule | NoLoader | LoadFailed

  function Load(s: State, r: Request): (State, Result<Ref, Error>) {
    var dotted := r.attempt.dotted;
    if dotted in s.loaded then
      (s, if s.loaded[dotted].contents == r.contents then Ok(s.loaded[dotted].ref) else Err(DifferentContents))
    else if dotted in s.table then (s, Err(AmbientModule))
    else if !r.loaderOk then (s, Err(NoLoader))
    else
      var (table, result) := Execute(s.table, r.attempt);
      match result
      case None => (s.(table := table), Err(LoadFailed))
      case Some(ref) => (State(table, s.loaded[dotted := Loaded(r.contents, ref)]), Ok(ref))
  }

  // What happens to the process: a load, or foreign code editing the table between loads.
  datatype Event = Loads(request: Request) | Edits(edits: seq<Edit>)

  function Happen(s: State, e: Event): State {
    match e
    case Loads(r) => Load(s, r).0
    case Edits(edits) => s.(table := Apply(s.table, edits))
  }

  function HappenAll(s: State, events: seq<Event>): State {
    if events == [] then s else Happen(HappenAll(s, events[..|events| - 1]), events[|events| - 1])
  }

  function AnswerAt(s: State, events: seq<Event>, i: nat): Result<Ref, Error>
    requires i < |events| && events[i].Loads?
  {
    Load(HappenAll(s, events[..i]), events[i].request).1
  }

  lemma {:induction false} LoadedIsPermanent(s: State, events: seq<Event>, i: nat, name: Name)
    requires i <= |events| && name in HappenAll(s, events[..i]).loaded
    ensures name in HappenAll(s, events).loaded
    ensures HappenAll(s, events).loaded[name] == HappenAll(s, events[..i]).loaded[name]
  {
    if i == |events| {
      assert events[..i] == events;
    } else {
      assert events[..|events| - 1][..i] == events[..i];
      LoadedIsPermanent(s, events[..|events| - 1], i, name);
    }
  }

  // Over any sequence of loads, with foreign code editing the table between them, each dotted name
  // keeps one content and one module object; once it is loaded, nothing is executed for it again.
  lemma {:induction false} OneModuleForEachName(s: State, events: seq<Event>, i: nat, j: nat)
    requires i < j < |events| && events[i].Loads? && events[j].Loads?
    requires events[i].request.attempt.dotted == events[j].request.attempt.dotted
    requires AnswerAt(s, events, i).Ok?
    ensures AnswerAt(s, events, j) ==
              (if events[i].request.contents == events[j].request.contents then AnswerAt(s, events, i)
               else Err(DifferentContents))
    ensures HappenAll(s, events[..j + 1]) == HappenAll(s, events[..j])
  {
    var dotted := events[i].request.attempt.dotted;
    assert events[..i + 1][..i] == events[..i];
    assert HappenAll(s, events[..i + 1]) == Happen(HappenAll(s, events[..i]), events[i]);
    assert events[..j][..i + 1] == events[..i + 1];
    LoadedIsPermanent(s, events[..j], i + 1, dotted);
    assert events[..j + 1][..j] == events[..j];
  }

  // A load that fails records nothing, and a load refused before anything runs changes nothing.
  lemma {:induction false} FailedLoad(s: State, r: Request)
    requires WellFormed(r.attempt) && Load(s, r).1.Err?
    ensures Load(s, r).0.loaded == s.loaded
    ensures Load(s, r).1 != Err(LoadFailed) ==> Load(s, r).0 == s
    ensures Load(s, r).1 == Err(LoadFailed) && r.attempt.createEdits == [] && r.attempt.executeEdits == [] ==>
              (Load(s, r).0 == s <==>
               forall e :: e in Inserted(s.table, r.attempt) ==> e.name !in r.attempt.faults.deletes)
  {
    if Load(s, r).1 == Err(LoadFailed) && r.attempt.createEdits == [] && r.attempt.executeEdits == [] {
      FailureRestoresIff(s.table, r.attempt);
      assert Interference(s.table, r.attempt) == [];
    }
  }

  // ----- which loads succeed -------------------------------------------------------------------------

  // Every parent is there as the same object or can be inserted, and the module can be created,
  // inserted and executed.
  predicate CanLoad(t: Table, a: Attempt) {
    && a.specOk && a.created.Some? && a.dotted !in a.faults.sets && a.executed
    && forall i :: 0 <= i < |a.parents| ==>
         var parent := a.parents[i];
         (parent.name in t && t[parent.name] == parent.ref) || (parent.name !in t && parent.name !in a.faults.sets)
  }

  lemma {:induction false} SucceedsIff(t: Table, a: Attempt)
    ensures Execute(t, a).1 == if CanLoad(t, a) then a.created else None
  {
    ExecuteShape(t, a);
    hide Missing, Add, Apply;
  }

  // What a load answers, and what it records.
  lemma {:induction false} LoadDecides(s: State, r: Request)
    ensures var (t, answer), dotted := Load(s, r), r.attempt.dotted;
            if dotted in s.loaded && s.loaded[dotted].contents == r.contents then answer == Ok(s.loaded[dotted].ref)
            else if dotted in s.loaded then answer == Err(DifferentContents)
            else if dotted in s.table then answer == Err(AmbientModule)
            else if !r.loaderOk then answer == Err(NoLoader)
            else if !CanLoad(s.table, r.attempt) then answer == Err(LoadFailed)
            else
              && answer == Ok(r.attempt.created.value)
              && t.loaded == s.loaded[dotted := Loaded(r.contents, r.attempt.created.value)]
  {
    SucceedsIff(s.table, r.attempt);
    hide Execute;
  }
}
