/**
 Any sequence of additions to a bundle builder: modules and packages by name, data by path, and files.
 Each of them writes one file, and whether a module's own file still holds its source depends on the
 last of them that writes it.
 */
module BundleRuns {
  import opened Wrappers
  import opened Names
  import opened BundleNames
  import opened Bundles

  datatype Op =
    | AddModule(dotted: string, source: Contents, package: bool)
    | AddData(path: string, bytes: Contents)
    | AddEntry(relative: string, contents: Contents)

  function Apply(b: Builder, op: Op): (Builder, Option<Error>) {
    match op
    case AddModule(dotted, source, package) => (InsertModule(b, dotted, source, package), None)
    case AddData(path, bytes) => (InsertData(b, path, bytes), None)
    case AddEntry(relative, contents) => InsertEntry(b, relative, contents)
  }

  // Additions up to the first that is refused.
  function Assemble(ops: seq<Op>): (Builder, Option<Error>) {
    if ops == [] then (EMPTY, None)
    else
      var (b, error) := Assemble(ops[..|ops| - 1]);
      if error.Some? then (b, error) else Apply(b, ops[|ops| - 1])
  }

  predicate Clean(ops: seq<Op>) {
    Assemble(ops).1.None? && Assemble(ops).0.error.None?
  }

  // ----- what one addition writes ------------------------------------------------------------------

  function PathOf(op: Op): string {
    match op
    case AddModule(dotted, _, package) => Origin(dotted, package)
    case AddData(path, _) => Normalized(path)
    case AddEntry(relative, _) => Normalized(relative)
  }

  function BytesOf(op: Op): Contents {
    match op
    case AddModule(_, source, _) => source
    case AddData(_, bytes) => bytes
    case AddEntry(_, contents) => contents
  }

  // The module an addition provides.
  function EntryFor(op: Op): Option<Entry> {
    match op
    case AddModule(dotted, _, package) => Some(Entry(dotted, package))
    case AddData(_, _) => None
    case AddEntry(relative, _) => if IsSource(Normalized(relative)) then EntryOf(Normalized(relative)) else None
  }

  predicate Adds(op: Op, d: string) {
    EntryFor(op).Some? && EntryFor(op).value.dotted == d
  }

  lemma {:induction false} Applied(b: Builder, op: Op)
    requires b.error.None? && Apply(b, op).1.None? && Apply(b, op).0.error.None?
    ensures var after := Apply(b, op).0;
            && after.files == b.files[PathOf(op) := BytesOf(op)]
            && (EntryFor(op).None? ==> after.modules == b.modules)
            && (EntryFor(op).Some? ==>
                 var entry := EntryFor(op).value;
                 && ValidateDotted(entry.dotted).None? && PathOf(op) == Origin(entry.dotted, entry.package)
                 && after.modules == b.modules[entry.dotted := Module(BytesOf(op), PathOf(op), entry.package)])
  {
    hide Normalized, EntryOf, Origin, ValidateDotted, IsSource;
    EmptyIsInvalid();
    if op.AddEntry? && IsSource(Normalized(op.relative)) && EntryOf(Normalized(op.relative)).value.dotted != "" {
      OriginOfEntry(Normalized(op.relative));
    }
  }

  // ----- when two modules share a file -------------------------------------------------------------------

  // A package and a plain module called as its initialiser.
  predicate Collide(a: Entry, c: Entry) {
    || (a.package && !c.package && c.dotted == a.dotted + "." + INIT)
    || (c.package && !a.package && a.dotted == c.dotted + "." + INIT)
  }

  // Two modules stand at one path exactly if they are the same or a package and its initialiser.
  lemma {:induction false} SameOrigin(a: Entry, c: Entry)
    requires ValidateDotted(a.dotted).None? && ValidateDotted(c.dotted).None?
    ensures Origin(a.dotted, a.package) == Origin(c.dotted, c.package) <==> a == c || Collide(a, c)
  {
    var p, q := PathParts(a.dotted, a.package), PathParts(c.dotted, c.package);
    OriginParts(a.dotted, a.package);
    OriginParts(c.dotted, c.package);
    IdentifiersFree(p);
    IdentifiersFree(q);
    SplitJoin(p, '/');
    SplitJoin(q, '/');
    JoinsWithSuffix(p, q);
    InitialiserParts(a.dotted, c.dotted);
    InitialiserParts(c.dotted, a.dotted);
    hide Origin, PY, INIT, Identifiers, Free, Split, Join;
    LastParts(Split(a.dotted, '.'), Split(c.dotted, '.'), [INIT]);
  }

  lemma {:induction false} JoinsWithSuffix(p: seq<string>, q: seq<string>)
    requires |p| > 0 && |q| > 0
    ensures Join(p, '/') + PY == Join(q, '/') + PY <==> Join(p, '/') == Join(q, '/')
  {
    var a, c := Join(p, '/'), Join(q, '/');
    if a + PY == c + PY {
      assert a == (a + PY)[..|a + PY| - |PY|];
    }
  }

  lemma {:induction false} LastParts(p: seq<string>, q: seq<string>, last: seq<string>)
    ensures p + last == q + last <==> p == q
    ensures p + [] == p && q + [] == q
  {
    if p + last == q + last {
      assert p == (p + last)[..|p + last| - |last|];
      assert q == (q + last)[..|q + last| - |last|];
    }
  }

  lemma {:induction false} InitialiserParts(a: string, c: string)
    requires ValidateDotted(a).None?
    ensures Split(c, '.') == Split(a, '.') + [INIT] <==> c == a + "." + INIT
  {
    var parts := Split(a, '.');
    InitialiserIsIdentifier();
    IdentifiersFree(parts + [INIT]);
    JoinAppend(parts, [INIT], '.');
    SplitJoin(parts + [INIT], '.');
  }

  // ----- whole runs ------------------------------------------------------------------------------------------

  predicate LastAdding(ops: seq<Op>, i: nat) {
    && i < |ops| && EntryFor(ops[i]).Some?
    && forall j :: i < j < |ops| ==> !Adds(ops[j], EntryFor(ops[i]).value.dotted)
  }

  predicate LastWriting(ops: seq<Op>, l: nat) {
    l < |ops| && forall j :: l < j < |ops| ==> PathOf(ops[j]) != PathOf(ops[l])
  }

  // An addition that neither is refused nor spoils the bundle.
  predicate Fine(op: Op) {
    match op
    case AddModule(dotted, _, _) => ValidateDotted(dotted).None?
    case AddData(_, _) => true
    case AddEntry(relative, contents) => Accepted(File(relative, contents)) && !Bare(File(relative, contents))
  }

  lemma {:induction false} ApplyIsClean(b: Builder, op: Op)
    ensures Apply(b, op).1.None? && Apply(b, op).0.error.None? <==> b.error.None? && Fine(op)
  {
    hide ValidateDotted, Accepted, Bare, Origin;
    if op.AddEntry? {
      EntryError(b, File(op.relative, op.contents));
      ErrorOfEntryStays(b, op.relative, op.contents);
      hide InsertEntry;
    }
  }

  lemma {:induction false} ErrorOfEntryStays(b: Builder, relative: string, contents: Contents)
    ensures b.error.Some? ==> InsertEntry(b, relative, contents).0.error.Some?
  {
    hide Normalized, EntryOf, IsSource;
  }

  // Nothing goes wrong exactly if every addition is fine by itself.
  lemma {:induction false} CleanIff(ops: seq<Op>)
    ensures Clean(ops) <==> forall i :: 0 <= i < |ops| ==> Fine(ops[i])
  {
    if ops != [] {
      var before := ops[..|ops| - 1];
      CleanIff(before);
      ApplyIsClean(Assemble(before).0, ops[|ops| - 1]);
      hide Apply, Fine;
      assert ops == before + [ops[|ops| - 1]];
    }
  }

  lemma {:induction false} CleanBefore(ops: seq<Op>)
    requires Clean(ops) && ops != []
    ensures Clean(ops[..|ops| - 1])
  {
    ApplyIsClean(Assemble(ops[..|ops| - 1]).0, ops[|ops| - 1]);
    hide Apply, Fine;
  }

  // The last addition that writes a path decides what its file holds.
  lemma {:induction false} LastWriteStands(ops: seq<Op>, l: nat)
    requires Clean(ops) && LastWriting(ops, l)
    ensures var files := Assemble(ops).0.files; PathOf(ops[l]) in files && files[PathOf(ops[l])] == BytesOf(ops[l])
  {
    var before := ops[..|ops| - 1];
    CleanBefore(ops);
    Applied(Assemble(before).0, ops[|ops| - 1]);
    hide Apply, PathOf, BytesOf, EntryFor;
    if l < |before| {
      assert LastWriting(before, l);
      LastWriteStands(before, l);
    }
  }

  // The last addition that provides a module decides what the module is.
  lemma {:induction false} LastAdditionProvides(ops: seq<Op>, i: nat)
    requires Clean(ops) && LastAdding(ops, i)
    ensures var modules, entry := Assemble(ops).0.modules, EntryFor(ops[i]).value;
            && entry.dotted in modules
            && modules[entry.dotted] == Module(BytesOf(ops[i]), PathOf(ops[i]), entry.package)
  {
    var before := ops[..|ops| - 1];
    CleanBefore(ops);
    Applied(Assemble(before).0, ops[|ops| - 1]);
    hide Apply, PathOf, BytesOf, EntryFor;
    if i < |before| {
      assert LastAdding(before, i);
      LastAdditionProvides(before, i);
      assert !Adds(ops[|before|], EntryFor(ops[i]).value.dotted);
    }
  }

  lemma {:induction false} ModuleWasAdded(ops: seq<Op>, d: string) returns (i: nat)
    requires Clean(ops) && d in Assemble(ops).0.modules
    ensures LastAdding(ops, i) && EntryFor(ops[i]).value.dotted == d
  {
    var before := ops[..|ops| - 1];
    CleanBefore(ops);
    Applied(Assemble(before).0, ops[|ops| - 1]);
    hide Apply, PathOf, BytesOf, EntryFor;
    if Adds(ops[|before|], d) {
      i := |before|;
    } else {
      i := ModuleWasAdded(before, d);
    }
  }

  lemma {:induction false} LastWriteExists(ops: seq<Op>, i: nat) returns (l: nat)
    requires i < |ops|
    ensures i <= l && LastWriting(ops, l) && PathOf(ops[l]) == PathOf(ops[i])
    decreases |ops| - i
  {
    hide PathOf;
    l := i;
    if !LastWriting(ops, i) {
      var j :| i < j < |ops| && PathOf(ops[j]) == PathOf(ops[i]);
      l := LastWriteExists(ops, j);
    }
  }

  // The file at the origin of a module holds the module's source.
  predicate Holds(b: Builder, d: string)
    requires d in b.modules
  {
    b.modules[d].origin in b.files && b.files[b.modules[d].origin] == b.modules[d].source
  }

  // The addition that made a module what it is, and a later one that left other bytes in its file.
  predicate Overwrites(ops: seq<Op>, i: nat, l: nat) {
    && LastAdding(ops, i) && i < l && LastWriting(ops, l)
    && PathOf(ops[l]) == PathOf(ops[i]) && BytesOf(ops[l]) != BytesOf(ops[i])
  }

  // After any additions every module's file holds its source exactly if none was overwritten.
  lemma {:induction false} HoldsUnlessOverwritten(ops: seq<Op>)
    requires Clean(ops)
    ensures (forall d :: d in Assemble(ops).0.modules ==> Holds(Assemble(ops).0, d))
            <==> forall i: nat, l: nat :: !Overwrites(ops, i, l)
  {
    var b := Assemble(ops).0;
    hide Clean, PathOf, BytesOf, EntryFor, Assemble;
    forall i: nat, l: nat | Overwrites(ops, i, l)
      ensures EntryFor(ops[i]).value.dotted in b.modules && !Holds(b, EntryFor(ops[i]).value.dotted)
    {
      LastAdditionProvides(ops, i);
      LastWriteStands(ops, l);
    }
    forall d | d in b.modules && !Holds(b, d)
      ensures exists i: nat, l: nat :: Overwrites(ops, i, l)
    {
      var i := ModuleWasAdded(ops, d);
      var l := LastWriteExists(ops, i);
      LastAdditionProvides(ops, i);
      LastWriteStands(ops, l);
      assert Overwrites(ops, i, l);
    }
  }

  // What can overwrite a module is data put at its path, or its initialiser or the package around it.
  lemma {:induction false} OverwriterIs(ops: seq<Op>, i: nat, l: nat)
    requires Clean(ops) && Overwrites(ops, i, l)
    ensures ops[l].AddData? || (EntryFor(ops[l]).Some? && Collide(EntryFor(ops[i]).value, EntryFor(ops[l]).value))
  {
    EntryIsValid(ops, i);
    if EntryFor(ops[l]).Some? {
      EntryIsValid(ops, l);
      SameOrigin(EntryFor(ops[i]).value, EntryFor(ops[l]).value);
    } else {
      OriginIsSource(EntryFor(ops[i]).value);
    }
    hide Origin, ValidateDotted, IsSource, EntryOf, Normalized, Collide, Assemble;
  }

  lemma {:induction false} OriginIsSource(entry: Entry)
    requires ValidateDotted(entry.dotted).None?
    ensures IsSource(Origin(entry.dotted, entry.package)) && EntryOf(Origin(entry.dotted, entry.package)).Some?
  {
    EntryOfOrigin(entry.dotted, entry.package);
  }

  lemma {:induction false} EntryIsValid(ops: seq<Op>, i: nat)
    requires Clean(ops) && i < |ops| && EntryFor(ops[i]).Some?
    ensures var entry := EntryFor(ops[i]).value;
            ValidateDotted(entry.dotted).None? && PathOf(ops[i]) == Origin(entry.dotted, entry.package)
  {
    var before := ops[..|ops| - 1];
    CleanBefore(ops);
    if i < |before| {
      EntryIsValid(before, i);
    } else {
      Applied(Assemble(before).0, ops[i]);
    }
  }

  // A package and a plain module called as its initialiser: the second overwrites the first.
  lemma {:induction false} InitialiserOverwritesPackage(dotted: string, source: Contents, other: Contents)
    requires ValidateDotted(dotted).None? && source != other
    ensures var ops := [AddModule(dotted, source, true), AddModule(dotted + "." + INIT, other, false)];
            Clean(ops) && dotted in Assemble(ops).0.modules && !Holds(Assemble(ops).0, dotted)
  {
    var ops := [AddModule(dotted, source, true), AddModule(dotted + "." + INIT, other, false)];
    InitialiserIsValid(dotted);
    assert |dotted + "." + INIT| > |dotted|;
    SameOrigin(Entry(dotted, true), Entry(dotted + "." + INIT, false));
    CleanIff(ops);
    hide Clean, Assemble, Origin, ValidateDotted, INIT;
    LastAdditionProvides(ops, 0);
    LastWriteStands(ops, 1);
  }

  lemma {:induction false} InitialiserIsValid(dotted: string)
    requires ValidateDotted(dotted).None?
    ensures ValidateDotted(dotted + "." + INIT).None?
  {
    InitialiserParts(dotted, dotted + "." + INIT);
    InitialiserIsIdentifier();
    hide INIT, Split, IsIdentifier;
  }

  // Data put at the path of a module: it overwrites the module.
  lemma {:induction false} DataOverwritesModule(dotted: string, source: Contents, package: bool, other: Contents)
    requires ValidateDotted(dotted).None? && source != other
    ensures var ops := [AddModule(dotted, source, package), AddData(Origin(dotted, package), other)];
            Clean(ops) && dotted in Assemble(ops).0.modules && !Holds(Assemble(ops).0, dotted)
  {
    var ops := [AddModule(dotted, source, package), AddData(Origin(dotted, package), other)];
    OriginIsNormal(dotted, package);
    CleanIff(ops);
    hide Clean, Assemble, Origin, ValidateDotted, Normalized;
    LastAdditionProvides(ops, 0);
    LastWriteStands(ops, 1);
  }

  lemma {:induction false} OriginIsNormal(dotted: string, package: bool)
    requires ValidateDotted(dotted).None?
    ensures Normalized(Origin(dotted, package)) == Origin(dotted, package)
  {
    OriginParts(dotted, package);
    var parts := PathParts(dotted, package);
    NoBackslash(parts);
    assert '\\' !in PY;
    ReplaceFree(Origin(dotted, package), '\\', '/');
  }

  lemma {:induction false} NoBackslash(parts: seq<string>)
    requires |parts| > 0 && Identifiers(parts)
    ensures '\\' !in Join(parts, '/')
  {
    assert IsIdentifier(parts[0]);
    if |parts| > 1 {
      NoBackslash(parts[1..]);
    }
  }

  // ----- bundles filled from files ---------------------------------------------------------------

  function Entries(files: seq<File>): seq<Op> {
    seq(|files|, i requires 0 <= i < |files| => AddEntry(files[i].path, files[i].contents))
  }

  // Filling a builder from files is such a run.
  lemma {:induction false} FillIsRun(files: seq<File>)
    ensures Assemble(Entries(files)) == Fill(files)
  {
    hide InsertEntry;
    if files != [] {
      FillIsRun(files[..|files| - 1]);
      assert Entries(files)[..|files| - 1] == Entries(files[..|files| - 1]);
    }
  }

  ghost predicate Sourced(b: Builder, d: string)
    requires d in b.modules
  {
    var m := b.modules[d];
    && ValidateDotted(d).None? && m.origin == Origin(d, m.package)
    && IsSource(m.origin) && EntryOf(m.origin) == Some(Entry(d, m.package))
    && Holds(b, d)
  }

  // Each module of a bundle filled from files stands in the file at its origin, and its path leads
  // back to it: files of one path provide the same module.
  lemma {:induction false} FilledIsSourced(files: seq<File>)
    requires Fill(files).1.None? && Fill(files).0.error.None?
    ensures forall d :: d in Fill(files).0.modules ==> Sourced(Fill(files).0, d)
  {
    var ops, b := Entries(files), Fill(files).0;
    FillIsRun(files);
    hide Fill, Origin, EntryOf, ValidateDotted, Normalized, Assemble;
    forall i: nat, l: nat
      ensures !Overwrites(ops, i, l)
    {
      if Overwrites(ops, i, l) {
        OverwriterIs(ops, i, l);
      }
    }
    HoldsUnlessOverwritten(ops);
    forall d | d in b.modules
      ensures Sourced(b, d)
    {
      var i := ModuleWasAdded(ops, d);
      LastAdditionProvides(ops, i);
      EntryIsValid(ops, i);
    }
  }

  // Every source file becomes the module of its path, unless a later file provides that module.
  lemma {:induction false} LastFileProvides(files: seq<File>, i: nat, d: string)
    requires Fill(files).1.None? && Fill(files).0.error.None?
    requires i < |files| && Adds(Entries(files)[i], d)
    requires forall j :: i < j < |files| ==> !Adds(Entries(files)[j], d)
    ensures d in Fill(files).0.modules
    ensures Fill(files).0.modules[d].source == files[i].contents
    ensures Fill(files).0.modules[d].origin == Normalized(files[i].path)
  {
    FillIsRun(files);
    hide Fill, EntryFor, Normalized;
    LastAdditionProvides(Entries(files), i);
  }
}
