/**
 From file paths to modules.  A bundle is filled from paths or from dotted names; each module
 remembers the path its source stands at.
 */
module BundleNames {
  import opened Wrappers
  import opened Names

  // The bytes of one file, and whether they are text.
  datatype Contents = Contents(bytes: string, isText: bool)

  datatype Module = Module(source: Contents, origin: string, package: bool)

  datatype Error = EmptyName | BadName(name: string) | NotText(path: string) | NoParent(name: string)

  function Letter(c: char): bool {
    c == '_' || 'a' <= c <= 'z' || 'A' <= c <= 'Z'
  }

  predicate IsIdentifier(name: string) {
    && name != "" && Letter(name[0])
    && forall i :: 0 <= i < |name| ==> Letter(name[i]) || '0' <= name[i] <= '9'
  }

  lemma {:induction false} InitialiserIsIdentifier()
    ensures IsIdentifier(INIT)
  {
    forall i | 0 <= i < |INIT|
      ensures Letter(INIT[i])
    {
      assert INIT[i] in ['_', '_', 'i', 'n', 'i', 't', '_', '_'];
    }
  }

  predicate Identifiers(parts: seq<string>) {
    forall i :: 0 <= i < |parts| ==> IsIdentifier(parts[i])
  }

  function ValidateDotted(dotted: string): Option<Error> {
    if dotted == "" then Some(EmptyName)
    else if !Identifiers(Split(dotted, '.')) then Some(BadName(dotted))
    else None
  }

  // Letters, digits and the underscore, by their code points.
  predicate WordCharacter(c: char) {
    var code := c as int;
    (65 <= code <= 90) || (97 <= code <= 122) || (48 <= code <= 57) || code == 95
  }

  // A dotted name is refused as empty, or as bad exactly if one of its components is empty, starts with a digit
  // or contains anything but letters, digits and underscores.
  lemma {:induction false} ValidNames(dotted: string)
    ensures ValidateDotted(dotted) == Some(EmptyName) <==> dotted == ""
    ensures ValidateDotted(dotted).None? <==>
              dotted != "" && forall part :: part in Split(dotted, '.') ==>
                part != "" && !('0' <= part[0] <= '9') && forall i :: 0 <= i < |part| ==> WordCharacter(part[i])
    ensures ValidateDotted(dotted).Some? && dotted != "" ==> ValidateDotted(dotted) == Some(BadName(dotted))
  {
    var parts := Split(dotted, '.');
    forall c: char
      ensures WordCharacter(c) <==> Letter(c) || '0' <= c <= '9'
      ensures Letter(c) ==> !('0' <= c <= '9')
    {
    }
    hide WordCharacter, Letter, Split;
    forall part | part in parts
      ensures IsIdentifier(part) <==>
                part != "" && !('0' <= part[0] <= '9') && forall i :: 0 <= i < |part| ==> WordCharacter(part[i])
    {
    }
    hide IsIdentifier;
    assert Identifiers(parts) <==> forall part :: part in parts ==> IsIdentifier(part);
  }

  function Replace(s: string, from: char, to: char): string {
    if s == "" then "" else [if s[0] == from then to else s[0]] + Replace(s[1..], from, to)
  }

  const PY: string := ".py"
  const INIT: string := "__init__"

  function Origin(dotted: string, package: bool): string {
    Replace(dotted, '.', '/') + (if package then "/" + INIT + PY else PY)
  }

  predicate IsSource(path: string) {
    |path| >= 3 && path[|path| - 3..] == PY
  }

  // The directories and the stem of a source path.
  function Components(path: string): seq<string>
    requires IsSource(path)
  {
    var parts := Split(path, '/');
    var filename := parts[|parts| - 1];
    parts[..|parts| - 1] + [if |filename| >= 3 then filename[..|filename| - 3] else filename]
  }

  function JoinDots(parts: seq<string>): string {
    if parts == [] then "" else Join(parts, '.')
  }

  datatype Entry = Entry(dotted: string, package: bool)

  // The module a source path stands for; empty for a bare initialiser.
  function EntryOf(path: string): Option<Entry>
    requires IsSource(path)
  {
    var parts := Components(path);
    if !Identifiers(parts) then None
    else if parts[|parts| - 1] == INIT then Some(Entry(JoinDots(parts[..|parts| - 1]), true))
    else Some(Entry(JoinDots(parts), false))
  }

  // ----- paths and names are inverse ---------------------------------------------------------

  lemma {:induction false} IdentifiersFree(parts: seq<string>)
    requires Identifiers(parts)
    ensures Free(parts, '.') && Free(parts, '/')
  {
    forall i | 0 <= i < |parts|
      ensures '.' !in parts[i] && '/' !in parts[i]
    {
      assert IsIdentifier(parts[i]);
    }
  }

  lemma {:induction false} ReplaceAppend(s: string, t: string, from: char, to: char)
    ensures Replace(s + t, from, to) == Replace(s, from, to) + Replace(t, from, to)
  {
    if s == "" {
      assert s + t == t;
    } else {
      assert (s + t)[1..] == s[1..] + t;
      ReplaceAppend(s[1..], t, from, to);
    }
  }

  lemma {:induction false} ReplaceFree(s: string, from: char, to: char)
    requires from !in s
    ensures Replace(s, from, to) == s
  {
    if s != "" {
      ReplaceFree(s[1..], from, to);
      assert [s[0]] + s[1..] == s;
    }
  }

  lemma {:induction false} ReplaceJoin(parts: seq<string>, from: char, to: char)
    requires |parts| > 0 && Free(parts, from)
    ensures Replace(Join(parts, from), from, to) == Join(parts, to)
  {
    ReplaceFree(parts[0], from, to);
    if |parts| > 1 {
      ReplaceJoin(parts[1..], from, to);
      ReplaceAppend(parts[0] + [from], Join(parts[1..], from), from, to);
      ReplaceAppend(parts[0], [from], from, to);
      assert Replace([from], from, to) == [to] + Replace("", from, to);
    }
  }

  lemma {:induction false} SplitSuffix(s: string, suffix: string, sep: char)
    requires sep !in suffix
    ensures var parts := Split(s, sep);
            Split(s + suffix, sep) == parts[..|parts| - 1] + [parts[|parts| - 1] + suffix]
    decreases |suffix|
  {
    hide Split, Join;
    var parts := Split(s, sep);
    if suffix == "" {
      assert s + suffix == s && parts[|parts| - 1] + suffix == parts[|parts| - 1];
      assert parts == parts[..|parts| - 1] + [parts[|parts| - 1]];
    } else {
      var c, rest := suffix[0], suffix[1..];
      assert s + suffix == (s + [c]) + rest;
      SplitSnoc(s, c, sep);
      SplitSuffix(s + [c], rest, sep);
      assert parts[|parts| - 1] + suffix == parts[|parts| - 1] + [c] + rest;
      var longer := Split(s + [c], sep);
      assert longer[..|longer| - 1] == parts[..|parts| - 1];
    }
  }

  // The last component of a source path carries the suffix, so cutting it off the file name is
  // cutting it off the path.
  lemma {:induction false} ComponentsOfStem(path: string)
    requires IsSource(path)
    ensures Components(path) == Split(path[..|path| - 3], '/')
  {
    var stem := path[..|path| - 3];
    assert '/' !in PY && |PY| == 3;
    assert path == stem + PY;
    hide PY, Split, Join;
    SplitSuffix(stem, PY, '/');
    CutSuffix(Split(stem, '/'), PY);
  }

  lemma {:induction false} CutSuffix(parts: seq<string>, suffix: string)
    requires |parts| > 0 && |suffix| == 3
    ensures var longer := parts[..|parts| - 1] + [parts[|parts| - 1] + suffix];
            var filename := longer[|longer| - 1];
            longer[..|longer| - 1] + [filename[..|filename| - 3]] == parts
  {
    var last := parts[|parts| - 1];
    assert (last + suffix)[..|last + suffix| - 3] == last;
    assert (parts[..|parts| - 1] + [last + suffix])[..|parts| - 1] == parts[..|parts| - 1];
  }

  // The name computed from an accepted path leads back to that path.
  lemma {:induction false} OriginOfEntry(path: string)
    requires IsSource(path) && EntryOf(path).Some? && EntryOf(path).value.dotted != ""
    ensures var entry := EntryOf(path).value;
            Origin(entry.dotted, entry.package) == path && ValidateDotted(entry.dotted).None?
  {
    var parts, stem := Components(path), path[..|path| - 3];
    ComponentsOfStem(path);
    IdentifiersFree(parts);
    assert path == stem + PY;
    if parts[|parts| - 1] == INIT {
      var dirs := parts[..|parts| - 1];
      assert parts == dirs + [INIT];
      ReplaceJoin(dirs, '.', '/');
      JoinAppend(dirs, [INIT], '/');
      SplitJoin(dirs, '.');
    } else {
      ReplaceJoin(parts, '.', '/');
      SplitJoin(parts, '.');
    }
  }

  lemma {:induction false} JoinNonempty(parts: seq<string>, sep: char)
    requires |parts| > 0 && Identifiers(parts)
    ensures Join(parts, sep) != ""
  {
    assert IsIdentifier(parts[0]);
  }

  // Only an initialiser outside every directory is accepted without naming a module.
  lemma {:induction false} BareInitialiser(path: string)
    requires IsSource(path) && EntryOf(path).Some?
    ensures EntryOf(path).value.dotted == "" <==> path == INIT + PY
  {
    assert '/' !in INIT;
    hide Split, IsIdentifier, INIT;
    var parts, stem := Components(path), path[..|path| - 3];
    ComponentsOfStem(path);
    assert path == stem + PY;
    JoinNonempty(parts, '.');
    if |parts| > 1 {
      assert Identifiers(parts[..|parts| - 1]);
      JoinNonempty(parts[..|parts| - 1], '.');
    }
    assert EntryOf(path).value.dotted == "" <==> |parts| == 1 && parts[0] == INIT;
    if |parts| == 1 {
      assert Join(parts, '/') == parts[0];
    }
    if path == INIT + PY {
      assert stem == INIT;
      SplitWhole(INIT, '/');
    }
  }

  function LastComponent(dotted: string): string {
    var parts := Split(dotted, '.');
    parts[|parts| - 1]
  }

  // The components of the path of a name.
  function PathParts(dotted: string, package: bool): seq<string> {
    Split(dotted, '.') + (if package then [INIT] else [])
  }

  lemma {:induction false} OriginParts(dotted: string, package: bool)
    requires ValidateDotted(dotted).None?
    ensures Identifiers(PathParts(dotted, package))
    ensures Origin(dotted, package) == Join(PathParts(dotted, package), '/') + PY
  {
    var parts := Split(dotted, '.');
    IdentifiersFree(parts);
    ReplaceJoin(parts, '.', '/');
    InitialiserIsIdentifier();
    if package {
      JoinAppend(parts, [INIT], '/');
    } else {
      assert parts + [] == parts;
    }
  }

  // The path of a valid name leads back to the name, except that a plain module called as an
  // initialiser shares its path with the package around it.
  lemma {:induction false} EntryOfOrigin(dotted: string, package: bool)
    requires ValidateDotted(dotted).None?
    ensures IsSource(Origin(dotted, package)) && EntryOf(Origin(dotted, package)).Some?
    ensures EntryOf(Origin(dotted, package)) == Some(Entry(dotted, package))
            <==> package || LastComponent(dotted) != INIT
  {
    OriginParts(dotted, package);
    PathEntry(PathParts(dotted, package));
    hide Origin, INIT, PY, Components, Identifiers;
    var parts, all := Split(dotted, '.'), PathParts(dotted, package);
    if package {
      assert all[..|all| - 1] == parts && all[|all| - 1] == INIT;
    } else {
      assert all == parts;
    }
  }

  lemma {:induction false} PathEntry(parts: seq<string>)
    requires |parts| > 0 && Identifiers(parts)
    ensures IsSource(Join(parts, '/') + PY) && Components(Join(parts, '/') + PY) == parts
  {
    IdentifiersFree(parts);
    SplitJoin(parts, '/');
    var stem := Join(parts, '/');
    assert |PY| == 3;
    hide Components, Identifiers, Free, PY;
    assert (stem + PY)[|stem + PY| - 3..] == PY && (stem + PY)[..|stem + PY| - 3] == stem;
    ComponentsOfStem(stem + PY);
  }

  lemma {:induction false} ReplaceChild(parent: string, name: string)
    requires '.' !in name
    ensures Replace(parent + ("." + name), '.', '/') == Replace(parent, '.', '/') + ("/" + name)
  {
    var child := "." + name;
    ReplaceAppend(parent, child, '.', '/');
    assert child[1..] == name;
    ReplaceFree(name, '.', '/');
  }

  lemma {:induction false} Assoc(a: string, b: string, c: string)
    ensures a + (b + c) == (a + b) + c
  {
  }

  // `package("a")` and `module("a.__init__")` share one file.
  lemma {:induction false} SharedOrigin(dotted: string)
    ensures Origin(dotted, true) == Origin(dotted + ("." + INIT), false)
  {
    assert '.' !in INIT;
    hide INIT, PY, Replace;
    ReplaceChild(dotted, INIT);
    Assoc(Replace(dotted, '.', '/'), "/" + INIT, PY);
  }
}
