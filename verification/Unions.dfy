/**
 Union types convert a guest value by trying their variants in order; a variant may be a union
 itself.  The error of a value that fits nowhere lists what was expected.
 */
module Unions {
  import opened Wrappers

  // What one plain type makes of the value at hand.
  datatype Outcome = Value(value: nat) | Refuses(text: string) | Breaks(code: nat)

  datatype Shape = Leaf(id: nat, names: seq<string>) | Union(variants: seq<Shape>)

  datatype Message = Text(text: string) | Mismatch(expected: string, found: string)

  datatype Error = Conversion(message: Message) | Other(code: nat)

  // The converted value, and the variants it is wrapped in from the outside in.
  datatype Picked = Picked(path: seq<nat>, id: nat, value: nat)

  // ----- descriptions ---------------------------------------------------------------------------

  function Push(names: seq<string>, name: string): seq<string> {
    if name in names then names else names + [name]
  }

  function PushAll(names: seq<string>, more: seq<string>): seq<string> {
    if more == [] then names
    else Push(PushAll(names, more[..|more| - 1]), more[|more| - 1])
  }

  function Describe(s: Shape, names: seq<string>): seq<string>
    decreases s, 0
  {
    match s
    case Leaf(_, own) => PushAll(names, own)
    case Union(variants) => DescribeVariants(s, |variants|, names)
  }

  function DescribeVariants(s: Shape, n: nat, names: seq<string>): seq<string>
    requires s.Union? && n <= |s.variants|
    decreases s, 0, n
  {
    if n == 0 then names else Describe(s.variants[n - 1], DescribeVariants(s, n - 1, names))
  }

  function JoinComma(names: seq<string>): string
    requires names != []
  {
    if |names| == 1 then names[0] else names[0] + ", " + JoinComma(names[1..])
  }

  function Render(names: seq<string>): string {
    if names == [] then "nothing"
    else if |names| == 1 then names[0]
    else JoinComma(names[..|names| - 1]) + " or " + names[|names| - 1]
  }

  // One name stands alone, the last of several follows an "or", and every other pair is parted by a comma.
  lemma {:induction false} RenderReads(first: string, second: string, more: seq<string>)
    ensures Render([]) == "nothing" && Render([first]) == first
    ensures Render([first, second]) == first + " or " + second
    ensures more != [] ==> Render([first, second] + more) == first + ", " + Render([second] + more)
  {
    assert [first, second][..1] == [first];
    assert Render([first, second]) == JoinComma([first]) + " or " + second;
    if more != [] {
      RenderMore(first, [second] + more);
      assert [first, second] + more == [first] + ([second] + more);
    }
  }

  lemma {:induction false} RenderMore(first: string, rest: seq<string>)
    requires |rest| > 1
    ensures Render([first] + rest) == first + ", " + Render(rest)
  {
    var names, init := [first] + rest, rest[..|rest| - 1];
    assert names[..|names| - 1] == [first] + init && names[|names| - 1] == rest[|rest| - 1];
    assert ([first] + init)[1..] == init;
    assert JoinComma([first] + init) == first + ", " + JoinComma(init);
    var joined, last := JoinComma(init), rest[|rest| - 1];
    hide JoinComma;
    assert Render(names) == first + ", " + joined + " or " + last;
    assert Render(rest) == joined + " or " + last;
  }

  // ----- conversion -----------------------------------------------------------------------------

  function FromGuest(s: Shape, leaf: nat -> Outcome, found: string): Result<Picked, Error>
    decreases s, 1
  {
    match s
    case Leaf(id, _) =>
      (match leaf(id)
       case Value(value) => Ok(Picked([], id, value))
       case Refuses(text) => Err(Conversion(Text(text)))
       case Breaks(code) => Err(Other(code)))
    case Union(variants) => Attempts(s, 0, leaf, found)
  }

  function Attempts(s: Shape, i: nat, leaf: nat -> Outcome, found: string): Result<Picked, Error>
    requires s.Union? && i <= |s.variants|
    decreases s, 0, |s.variants| - i
  {
    if i == |s.variants| then Err(Conversion(Mismatch(Render(Describe(s, [])), found)))
    else
      match FromGuest(s.variants[i], leaf, found)
      case Ok(p) => Ok(p.(path := [i] + p.path))
      case Err(Other(code)) => Err(Other(code))
      case Err(Conversion(_)) => Attempts(s, i + 1, leaf, found)
  }

  // ----- the flattened meaning --------------------------------------------------------------------

  datatype Spot = Spot(path: seq<nat>, id: nat, names: seq<string>)

  function Under(i: nat, spots: seq<Spot>): seq<Spot> {
    if spots == [] then []
    else [spots[0].(path := [i] + spots[0].path)] + Under(i, spots[1..])
  }

  // The plain types of a shape from left to right.
  function Leaves(s: Shape): seq<Spot>
    decreases s, 1
  {
    match s
    case Leaf(id, names) => [Spot([], id, names)]
    case Union(variants) => LeavesFrom(s, 0)
  }

  function LeavesFrom(s: Shape, i: nat): seq<Spot>
    requires s.Union? && i <= |s.variants|
    decreases s, 0, |s.variants| - i
  {
    if i == |s.variants| then [] else Under(i, Leaves(s.variants[i])) + LeavesFrom(s, i + 1)
  }

  // The first type that takes the value or breaks decides.
  function Scan(spots: seq<Spot>, leaf: nat -> Outcome): Option<Result<Picked, nat>> {
    if spots == [] then None
    else
      match leaf(spots[0].id)
      case Value(value) => Some(Ok(Picked(spots[0].path, spots[0].id, value)))
      case Breaks(code) => Some(Err(code))
      case Refuses(_) => Scan(spots[1..], leaf)
  }

  function Decision(spot: Spot, leaf: nat -> Outcome): Result<Picked, nat>
    requires !leaf(spot.id).Refuses?
  {
    if leaf(spot.id).Value? then Ok(Picked(spot.path, spot.id, leaf(spot.id).value)) else Err(leaf(spot.id).code)
  }

  lemma {:induction false} ScanDecides(spots: seq<Spot>, leaf: nat -> Outcome)
    ensures Scan(spots, leaf).None? <==> forall k :: 0 <= k < |spots| ==> leaf(spots[k].id).Refuses?
    ensures forall k :: (0 <= k < |spots| && !leaf(spots[k].id).Refuses?
                        && forall j :: 0 <= j < k ==> leaf(spots[j].id).Refuses?) ==>
              Scan(spots, leaf) == Some(Decision(spots[k], leaf))
  {
    if spots != [] {
      ScanDecides(spots[1..], leaf);
    }
  }

  lemma {:induction false} ScanAppend(a: seq<Spot>, b: seq<Spot>, leaf: nat -> Outcome)
    ensures Scan(a + b, leaf) == if Scan(a, leaf).Some? then Scan(a, leaf) else Scan(b, leaf)
  {
    if a == [] {
      assert a + b == b;
    } else {
      assert (a + b)[1..] == a[1..] + b;
      ScanAppend(a[1..], b, leaf);
    }
  }

  lemma {:induction false} ScanUnder(i: nat, spots: seq<Spot>, leaf: nat -> Outcome)
    ensures Scan(Under(i, spots), leaf) ==
              match Scan(spots, leaf)
              case Some(Ok(p)) => Some(Ok(p.(path := [i] + p.path)))
              case other => other
  {
    if spots != [] {
      ScanUnder(i, spots[1..], leaf);
      assert Under(i, spots)[1..] == Under(i, spots[1..]);
    }
  }

  // What conversion of a shape is, given what the scan of its leaves found.
  predicate Follows(r: Result<Picked, Error>, scan: Option<Result<Picked, nat>>) {
    match scan
    case Some(Ok(p)) => r == Ok(p)
    case Some(Err(code)) => r == Err(Other(code))
    case None => r.Err? && r.error.Conversion?
  }

  lemma {:induction false} ConversionScans(s: Shape, leaf: nat -> Outcome, found: string)
    ensures Follows(FromGuest(s, leaf, found), Scan(Leaves(s), leaf))
    decreases s, 1
  {
    match s {
      case Leaf(id, names) => assert Scan([Spot([], id, names)][1..], leaf) == None;
      case Union(_) => AttemptsScan(s, 0, leaf, found);
    }
  }

  lemma {:induction false} AttemptsScan(s: Shape, i: nat, leaf: nat -> Outcome, found: string)
    requires s.Union? && i <= |s.variants|
    ensures Follows(Attempts(s, i, leaf, found), Scan(LeavesFrom(s, i), leaf))
    ensures Scan(LeavesFrom(s, i), leaf).None? ==>
              Attempts(s, i, leaf, found) == Err(Conversion(Mismatch(Render(Describe(s, [])), found)))
    decreases s, 0, |s.variants| - i
  {
    if i < |s.variants| {
      ConversionScans(s.variants[i], leaf, found);
      AttemptsScan(s, i + 1, leaf, found);
      ScanUnder(i, Leaves(s.variants[i]), leaf);
      ScanAppend(Under(i, Leaves(s.variants[i])), LeavesFrom(s, i + 1), leaf);
      hide Leaves, Scan, Under, Describe;
    }
  }

  // ----- descriptions flatten too -----------------------------------------------------------------

  function NamesOf(spots: seq<Spot>): seq<string> {
    if spots == [] then [] else spots[0].names + NamesOf(spots[1..])
  }

  lemma {:induction false} NamesOfAppend(a: seq<Spot>, b: seq<Spot>)
    ensures NamesOf(a + b) == NamesOf(a) + NamesOf(b)
  {
    if a == [] {
      assert a + b == b;
    } else {
      assert (a + b)[1..] == a[1..] + b;
      NamesOfAppend(a[1..], b);
    }
  }

  lemma {:induction false} NamesOfUnder(i: nat, spots: seq<Spot>)
    ensures NamesOf(Under(i, spots)) == NamesOf(spots)
  {
    if spots != [] {
      NamesOfUnder(i, spots[1..]);
      assert Under(i, spots)[1..] == Under(i, spots[1..]);
    }
  }

  lemma {:induction false} PushAllAppend(names: seq<string>, a: seq<string>, b: seq<string>)
    ensures PushAll(names, a + b) == PushAll(PushAll(names, a), b)
  {
    if b == [] {
      assert a + b == a;
    } else {
      assert (a + b)[..|a + b| - 1] == a + b[..|b| - 1];
      PushAllAppend(names, a, b[..|b| - 1]);
    }
  }

  // The leaves of the first `n` variants.
  function LeavesUpTo(s: Shape, n: nat): seq<Spot>
    requires s.Union? && n <= |s.variants|
  {
    if n == 0 then [] else LeavesUpTo(s, n - 1) + Under(n - 1, Leaves(s.variants[n - 1]))
  }

  lemma {:induction false} LeavesSplit(s: Shape, n: nat)
    requires s.Union? && n <= |s.variants|
    ensures LeavesUpTo(s, n) + LeavesFrom(s, n) == LeavesFrom(s, 0)
  {
    if n > 0 {
      LeavesSplit(s, n - 1);
      hide Leaves, Under;
      var last := Under(n - 1, Leaves(s.variants[n - 1]));
      assert LeavesFrom(s, n - 1) == last + LeavesFrom(s, n);
      assert LeavesUpTo(s, n - 1) + (last + LeavesFrom(s, n)) == (LeavesUpTo(s, n - 1) + last) + LeavesFrom(s, n);
    }
  }

  lemma {:induction false} DescribePushes(s: Shape, names: seq<string>)
    ensures Describe(s, names) == PushAll(names, NamesOf(Leaves(s)))
    decreases s, 1
  {
    match s {
      case Leaf(id, own) => assert NamesOf([Spot([], id, own)]) == own + NamesOf([]) == own;
      case Union(variants) =>
        VariantsPush(s, |variants|, names);
        LeavesSplit(s, |variants|);
        assert LeavesUpTo(s, |variants|) + [] == LeavesUpTo(s, |variants|);
    }
  }

  lemma {:induction false} VariantsPush(s: Shape, n: nat, names: seq<string>)
    requires s.Union? && n <= |s.variants|
    ensures DescribeVariants(s, n, names) == PushAll(names, NamesOf(LeavesUpTo(s, n)))
    decreases s, 0, n
  {
    if n > 0 {
      VariantsPush(s, n - 1, names);
      var before, last := LeavesUpTo(s, n - 1), Leaves(s.variants[n - 1]);
      DescribePushes(s.variants[n - 1], DescribeVariants(s, n - 1, names));
      NamesOfUnder(n - 1, last);
      NamesOfAppend(before, Under(n - 1, last));
      PushAllAppend(names, NamesOf(before), NamesOf(last));
      hide Leaves, PushAll, NamesOf;
    }
  }

  // Pushing keeps the first occurrence of each name, in order: the names are distinct, none is
  // missing, and names stand in the order in which they first occur.
  predicate FirstAt(names: seq<string>, k: nat) {
    k < |names| && forall j :: 0 <= j < k ==> names[j] != names[k]
  }

  function FirstOccurrences(names: seq<string>): seq<string> {
    if names == [] then []
    else
      var last := |names| - 1;
      FirstOccurrences(names[..last]) + (if FirstAt(names, last) then [names[last]] else [])
  }

  lemma {:induction false} PushAllIsFirstOccurrences(names: seq<string>)
    ensures PushAll([], names) == FirstOccurrences(names)
    ensures forall name :: name in FirstOccurrences(names) <==> name in names
    ensures forall i, j :: 0 <= i < j < |FirstOccurrences(names)| ==>
              FirstOccurrences(names)[i] != FirstOccurrences(names)[j]
  {
    if names != [] {
      var before, last := names[..|names| - 1], names[|names| - 1];
      PushAllIsFirstOccurrences(before);
      assert names == before + [last];
      assert FirstAt(names, |before|) <==> last !in before;
    }
  }

  // Nested unions flatten: for any tree of unions, conversion is the scan of its leaves from left to
  // right, and a value that fits none is answered with the names of all leaves, each once.
  lemma {:induction false} UnionsFlatten(s: Shape, leaf: nat -> Outcome, found: string)
    requires s.Union?
    ensures FromGuest(s, leaf, found) ==
              match Scan(Leaves(s), leaf)
              case Some(Ok(p)) => Ok(p)
              case Some(Err(code)) => Err(Other(code))
              case None => Err(Conversion(Mismatch(Render(FirstOccurrences(NamesOf(Leaves(s)))), found)))
  {
    AttemptsScan(s, 0, leaf, found);
    DescribePushes(s, []);
    PushAllIsFirstOccurrences(NamesOf(Leaves(s)));
    hide Scan, Attempts, LeavesFrom, PushAll, FirstOccurrences;
  }

  // ----- the list of expected names, filled in place -----------------------------------------------

  class Expected {
    var names: seq<string>

    constructor ()
      ensures names == []
    {
      names := [];
    }

    method PushName(name: string)
      modifies this
      ensures names == Push(old(names), name)
    {
      if name !in names {
        names := names + [name];
      }
    }

    method DescribeShape(s: Shape)
      modifies this
      ensures names == Describe(s, old(names))
      decreases s
    {
      match s {
        case Leaf(_, own) =>
          assert own[..|own|] == own;
          for i := 0 to |own|
            invariant names == PushAll(old(names), own[..i])
          {
            assert own[..i + 1][..i] == own[..i];
            PushName(own[i]);
          }
        case Union(variants) =>
          for i := 0 to |variants|
            invariant names == DescribeVariants(s, i, old(names))
          {
            DescribeShape(variants[i]);
          }
      }
    }
  }
}
