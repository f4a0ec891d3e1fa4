/**
 Dotted module names.  The importer works on strings with a separator; the meaning of
 each operation is given on the list of components, and the two levels are proved equal.
 */
module Names {
  import opened Wrappers

  // ----- components ---------------------------------------------------------------

  function Split(s: string, sep: char): (parts: seq<string>)
    ensures |parts| > 0
    ensures forall i :: 0 <= i < |parts| ==> sep !in parts[i]
    ensures Join(parts, sep) == s
  {
    if s == "" then [""]
    else
      var rest := Split(s[1..], sep);
      if s[0] == sep then
        assert ([""] + rest)[1..] == rest;
        [""] + rest
      else
        var parts := [[s[0]] + rest[0]] + rest[1..];
        assert parts[1..] == rest[1..];
        parts
  }

  function Join(parts: seq<string>, sep: char): string
    requires |parts| > 0
  {
    if |parts| == 1 then parts[0] else parts[0] + [sep] + Join(parts[1..], sep)
  }

  ghost predicate Free(parts: seq<string>, sep: char) {
    forall i :: 0 <= i < |parts| ==> sep !in parts[i]
  }

  lemma {:induction false} SplitHead(s: string, sep: char, rest: string)
    requires sep !in s
    ensures Split(s + [sep] + rest, sep) == [s] + Split(rest, sep)
  {
    var whole := s + [sep] + rest;
    if s == "" {
      assert whole[1..] == rest;
    } else {
      assert whole[1..] == s[1..] + [sep] + rest;
      SplitHead(s[1..], sep, rest);
      assert [s[0]] + s[1..] == s;
    }
  }

  lemma {:induction false} SplitWhole(s: string, sep: char)
    requires sep !in s
    ensures Split(s, sep) == [s]
  {
    if s != "" {
      SplitWhole(s[1..], sep);
      assert [s[0]] + s[1..] == s;
    }
  }

  // Splitting undoes joining exactly when no component contains the separator.
  lemma {:induction false} SplitJoin(parts: seq<string>, sep: char)
    requires |parts| > 0 && Free(parts, sep)
    ensures Split(Join(parts, sep), sep) == parts
  {
    if |parts| == 1 {
      SplitWhole(parts[0], sep);
      assert parts == [parts[0]];
    } else {
      SplitHead(parts[0], sep, Join(parts[1..], sep));
      SplitJoin(parts[1..], sep);
    }
  }

  lemma {:induction false} JoinAppend(a: seq<string>, b: seq<string>, sep: char)
    requires |a| > 0 && |b| > 0
    ensures Join(a + b, sep) == Join(a, sep) + [sep] + Join(b, sep)
  {
    if |a| == 1 {
      assert (a + b)[1..] == b;
    } else {
      assert (a + b)[1..] == a[1..] + b;
      JoinAppend(a[1..], b, sep);
    }
  }

  lemma {:induction false} SplitCons(s: string, sep: char)
    requires s != ""
    ensures var rest := Split(s[1..], sep);
            Split(s, sep) == if s[0] == sep then [""] + rest else [[s[0]] + rest[0]] + rest[1..]
  {
  }

  // How the components change when one character is added at the end.
  lemma {:induction false} SplitSnoc(s: string, c: char, sep: char)
    ensures var parts := Split(s, sep);
            Split(s + [c], sep) ==
              if c == sep then parts + [""] else parts[..|parts| - 1] + [parts[|parts| - 1] + [c]]
  {
    if s == "" {
      assert (s + [c])[1..] == "";
    } else {
      assert (s + [c])[1..] == s[1..] + [c];
      SplitSnoc(s[1..], c, sep);
      SplitCons(s, sep);
      SplitCons(s + [c], sep);
      hide Split, Join;
    }
  }

  // ----- the string operations of DottedName -----------------------------------------

  function SplitOnce(s: string): Option<(string, string)> {
    if s == "" then None
    else if s[0] == '.' then Some(("", s[1..]))
    else match SplitOnce(s[1..])
      case None => None
      case Some(pair) => Some(([s[0]] + pair.0, pair.1))
  }

  function RSplitOnce(s: string): (r: Option<(string, string)>)
    ensures r.Some? ==> |r.value.0| < |s| && s == r.value.0 + "." + r.value.1
  {
    if s == "" then None
    else
      var init, last := s[..|s| - 1], s[|s| - 1];
      if last == '.' then Some((init, ""))
      else match RSplitOnce(init)
        case None => None
        case Some(pair) => Some((pair.0, pair.1 + [last]))
  }

  function Head(s: string): string {
    match SplitOnce(s)
    case None => s
    case Some(pair) => pair.0
  }

  function Parent(s: string): (r: Option<(string, string)>)
    ensures r.Some? ==> |r.value.0| < |s| && s == r.value.0 + "." + r.value.1
  {
    RSplitOnce(s)
  }

  function PrefixesBefore(s: string, end: nat): seq<string>
    requires end <= |s|
  {
    if end == 0 then []
    else PrefixesBefore(s, end - 1) + (if s[end - 1] == '.' then [s[..end - 1]] else [])
  }

  function Prefixes(s: string): (r: seq<string>)
    ensures |r| > 0
    ensures r[|r| - 1] == s
  {
    PrefixesBefore(s, |s|) + [s]
  }

  predicate IsDenied(s: string, denied: set<string>) {
    exists i :: 0 <= i < |Prefixes(s)| && Prefixes(s)[i] in denied
  }

  // ----- string level equals component level ------------------------------------------

  lemma {:induction false} HeadIsFirstComponent(s: string)
    ensures Head(s) == Split(s, '.')[0]
    ensures SplitOnce(s).Some? <==> |Split(s, '.')| > 1
    ensures SplitOnce(s).Some? ==> s == SplitOnce(s).value.0 + "." + SplitOnce(s).value.1
  {
    if s != "" && s[0] != '.' {
      HeadIsFirstComponent(s[1..]);
      assert [s[0]] + s[1..] == s;
    }
  }

  lemma {:induction false} ParentDropsLastComponent(s: string)
    ensures var parts := Split(s, '.');
            Parent(s) == if |parts| == 1 then None
                         else Some((Join(parts[..|parts| - 1], '.'), parts[|parts| - 1]))
  {
    if s != "" {
      var init, last := s[..|s| - 1], s[|s| - 1];
      assert init + [last] == s;
      SplitSnoc(init, last, '.');
      ParentDropsLastComponent(init);
      var before, parts := Split(init, '.'), Split(s, '.');
      if last == '.' {
        assert parts[..|parts| - 1] == before;
      } else {
        assert parts[..|parts| - 1] == before[..|before| - 1];
      }
    }
  }

  lemma {:induction false} PrefixesBeforeFrame(s: string, c: char, end: nat)
    requires end <= |s|
    ensures PrefixesBefore(s + [c], end) == PrefixesBefore(s, end)
  {
    if end > 0 {
      PrefixesBeforeFrame(s, c, end - 1);
      assert (s + [c])[..end - 1] == s[..end - 1];
    }
  }

  lemma {:induction false} PrefixesSnoc(s: string, c: char)
    ensures Prefixes(s + [c]) == (if c == '.' then Prefixes(s) else PrefixesBefore(s, |s|)) + [s + [c]]
  {
    var t := s + [c];
    PrefixesBeforeFrame(s, c, |s|);
    assert |t| == |s| + 1 && t[|s|] == c && t[..|s|] == s;
    var before := PrefixesBefore(t, |s|);
    assert PrefixesBefore(t, |t|) == before + (if c == '.' then [s] else []);
    if c == '.' {
      assert Prefixes(t) == before + [s] + [t];
    } else {
      assert PrefixesBefore(t, |t|) == before;
    }
  }

  // `prefixes` lists the joins of the component prefixes, shortest first.
  lemma {:induction false} PrefixesAreComponentPrefixes(s: string)
    ensures |Prefixes(s)| == |Split(s, '.')|
    ensures forall i :: 0 <= i < |Prefixes(s)| ==>
              Prefixes(s)[i] == Join(Split(s, '.')[..i + 1], '.')
  {
    var parts := Split(s, '.');
    if s == "" {
      assert parts[..1] == parts;
    } else {
      var init, last := s[..|s| - 1], s[|s| - 1];
      assert init + [last] == s;
      SplitSnoc(init, last, '.');
      PrefixesSnoc(init, last);
      PrefixesAreComponentPrefixes(init);
      var before, shorter := Split(init, '.'), Prefixes(init);
      forall i | 0 <= i < |Prefixes(s)|
        ensures Prefixes(s)[i] == Join(parts[..i + 1], '.')
      {
        if i + 1 == |Prefixes(s)| {
          assert parts[..i + 1] == parts;
        } else {
          assert parts[..i + 1] == before[..i + 1];
          assert Prefixes(s)[i] == shorter[i];
        }
      }
    }
  }

  lemma {:induction false} PrefixComponents(s: string, i: nat)
    requires i < |Prefixes(s)|
    ensures i < |Split(s, '.')| && Split(Prefixes(s)[i], '.') == Split(s, '.')[..i + 1]
  {
    PrefixesAreComponentPrefixes(s);
    SplitJoin(Split(s, '.')[..i + 1], '.');
  }

  // The prefixes of a prefix are the shorter prefixes of the whole name.
  lemma {:induction false} PrefixesOfPrefix(s: string, i: nat)
    requires i < |Prefixes(s)|
    ensures Prefixes(Prefixes(s)[i]) == Prefixes(s)[..i + 1]
  {
    var parts, all := Split(s, '.'), Prefixes(s);
    var p := all[i];
    PrefixesAreComponentPrefixes(s);
    PrefixComponents(s, i);
    PrefixesAreComponentPrefixes(p);
    var shorter := Prefixes(p);
    forall k | 0 <= k <= i
      ensures shorter[k] == all[k]
    {
      assert parts[..i + 1][..k + 1] == parts[..k + 1];
    }
    assert shorter == all[..i + 1];
  }

  // Every prefix but the first has the one before it as its parent; the first is the head.
  lemma {:induction false} ParentOfPrefix(s: string, i: nat)
    requires i < |Prefixes(s)|
    ensures i < |Split(s, '.')|
    ensures Parent(Prefixes(s)[i]) ==
              if i == 0 then None else Some((Prefixes(s)[i - 1], Split(s, '.')[i]))
    ensures Prefixes(s)[0] == Head(s)
  {
    var parts := Split(s, '.');
    PrefixesAreComponentPrefixes(s);
    HeadIsFirstComponent(s);
    assert Join(parts[..1], '.') == parts[0];
    PrefixComponents(s, i);
    ParentDropsLastComponent(Prefixes(s)[i]);
    if i > 0 {
      assert parts[..i + 1][..i] == parts[..i];
    }
  }

  // A submodule of `s` has `s` as its parent and one prefix more.
  lemma {:induction false} ChildName(s: string, last: string)
    requires '.' !in last
    ensures Parent(s + "." + last) == Some((s, last))
    ensures Prefixes(s + "." + last) == Prefixes(s) + [s + "." + last]
  {
    var child, parts := s + "." + last, Split(s, '.');
    var all := parts + [last];
    JoinAppend(parts, [last], '.');
    SplitJoin(all, '.');
    assert Split(child, '.') == all && all[..|parts|] == parts;
    ParentDropsLastComponent(child);
    PrefixesAreComponentPrefixes(child);
    PrefixesAreComponentPrefixes(s);
    forall i | 0 <= i < |parts|
      ensures Prefixes(child)[i] == Prefixes(s)[i]
    {
      assert all[..i + 1] == parts[..i + 1];
    }
  }

  lemma {:induction false} PlainName(d: string)
    requires '.' !in d
    ensures Prefixes(d) == [d] && Parent(d) == None && Head(d) == d
  {
    SplitWhole(d, '.');
    PrefixesAreComponentPrefixes(d);
    ParentOfPrefix(d, 0);
  }

  // A name is denied exactly when some nonempty component prefix of it is.
  lemma {:induction false} DeniedByComponents(s: string, denied: set<string>)
    ensures IsDenied(s, denied) <==>
            exists k :: 1 <= k <= |Split(s, '.')| && Join(Split(s, '.')[..k], '.') in denied
  {
    PrefixesAreComponentPrefixes(s);
    if IsDenied(s, denied) {
      var i :| 0 <= i < |Prefixes(s)| && Prefixes(s)[i] in denied;
      assert Join(Split(s, '.')[..i + 1], '.') in denied;
    }
    if k :| 1 <= k <= |Split(s, '.')| && Join(Split(s, '.')[..k], '.') in denied {
      assert Prefixes(s)[k - 1] in denied;
    }
  }

  // Denying a name denies all of its descendants.
  lemma {:induction false} DenialCoversDescendants(s: string, tail: string, denied: set<string>)
    requires IsDenied(s, denied)
    ensures IsDenied(s + "." + tail, denied)
  {
    var a, b := Split(s, '.'), Split(tail, '.');
    JoinAppend(a, b, '.');
    SplitJoin(a + b, '.');
    DeniedByComponents(s, denied);
    DeniedByComponents(s + "." + tail, denied);
    var k :| 1 <= k <= |a| && Join(a[..k], '.') in denied;
    assert (a + b)[..k] == a[..k];
  }

  // ----- relative imports ---------------------------------------------------------------

  datatype NameError = NoParentPackage | BeyondTopLevel

  // Section 5.7 of the Python Language Reference: one leading dot is the current package
  // and every further dot drops one more trailing component.
  function Absolute(package: string, name: string, level: nat): Result<string, NameError> {
    var parts := Split(package, '.');
    var drop := if level == 0 then 0 else level - 1;
    if package == "" then Err(NoParentPackage)
    else if drop >= |parts| then Err(BeyondTopLevel)
    else
      var base := parts[..|parts| - drop];
      Ok(Join(if name == "" then base else base + Split(name, '.'), '.'))
  }

  lemma {:induction false} ParentRepeated(base: string)
    ensures var parts := Split(base, '.');
            Parent(base).Some? ==> |parts| > 1 && Split(Parent(base).value.0, '.') == parts[..|parts| - 1]
    ensures Parent(base).None? ==> |Split(base, '.')| == 1
  {
    var parts := Split(base, '.');
    ParentDropsLastComponent(base);
    if |parts| > 1 {
      SplitJoin(parts[..|parts| - 1], '.');
    }
  }

  method Absolutise(package: string, name: string, level: nat) returns (r: Result<string, NameError>)
    ensures r == Absolute(package, name, level)
  {
    if package == "" {
      return Err(NoParentPackage);
    }
    var base := package;
    ghost var all := Split(package, '.');
    assert all[..|all|] == all;
    var i := 1;
    while i < level
      invariant 1 <= i
      invariant i <= level || i == 1
      invariant i <= |all|
      invariant Split(base, '.') == all[..|all| - (i - 1)]
    {
      ParentRepeated(base);
      match Parent(base) {
        case None => return Err(BeyondTopLevel);
        case Some(pair) => base := pair.0;
      }
      i := i + 1;
    }
    if name == "" {
      return Ok(base);
    }
    JoinAppend(Split(base, '.'), Split(name, '.'), '.');
    return Ok(base + "." + name);
  }

  // The absolute name has exactly the surviving package components followed by the name's.
  lemma {:induction false} AbsoluteComponents(package: string, name: string, level: nat)
    ensures Absolute(package, name, level).Ok? <==> package != "" && level <= |Split(package, '.')|
    ensures Absolute(package, name, level).Err? ==>
              Absolute(package, name, level).error == if package == "" then NoParentPackage else BeyondTopLevel
    ensures Absolute(package, name, level).Ok? ==>
              Split(Absolute(package, name, level).value, '.') ==
                Split(package, '.')[..|Split(package, '.')| - (if level == 0 then 0 else level - 1)] +
                (if name == "" then [] else Split(name, '.'))
  {
    var parts := Split(package, '.');
    if package != "" && level <= |parts| {
      var base := parts[..|parts| - (if level == 0 then 0 else level - 1)];
      SplitJoin(base, '.');
      SplitJoin(base + Split(name, '.'), '.');
    }
  }
}
