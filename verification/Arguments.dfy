/**
 Binding the arguments of a call to the declared parameters of a host callable.  Each accessor marks
 what it consumed, and finishing refuses whatever nobody consumed.
 */
module Arguments {
  import opened Wrappers

  type Value = nat

  datatype Kind = PositionalOrKeyword | PositionalOnly | KeywordOnly

  datatype Param = Param(name: string, kind: Kind, required: bool)

  // Parameters in declaration order, then perhaps one for the remaining positional arguments and
  // one for the remaining keyword arguments.
  datatype Signature = Signature(params: seq<Param>, rest: bool, restKeywords: bool)

  datatype Keyword = Keyword(name: string, value: Value)

  datatype Call = Call(positional: seq<Value>, keyword: seq<Keyword>)

  datatype Bound = Bound(values: seq<Option<Value>>, rest: seq<Value>, restKeywords: seq<Keyword>)

  datatype Error = Missing(name: string) | Surplus(expected: nat, got: nat) | Unexpected(name: string)

  predicate DistinctParams(params: seq<Param>) {
    forall i, j :: 0 <= i < j < |params| ==> params[i].name != params[j].name
  }

  predicate DistinctKeywords(keyword: seq<Keyword>) {
    forall i, j :: 0 <= i < j < |keyword| ==> keyword[i].name != keyword[j].name
  }

  // Positional slots of the first `n` parameters.
  function Slots(params: seq<Param>, n: nat): nat
    requires n <= |params|
  {
    if n == 0 then 0 else Slots(params, n - 1) + (if params[n - 1].kind.KeywordOnly? then 0 else 1)
  }

  predicate ByPosition(sig: Signature, call: Call, i: nat)
    requires i < |sig.params|
  {
    !sig.params[i].kind.KeywordOnly? && Slots(sig.params, i) < |call.positional|
  }

  predicate ByKeyword(sig: Signature, i: nat)
    requires i < |sig.params|
  {
    !sig.params[i].kind.PositionalOnly?
  }

  predicate Named(call: Call, name: string) {
    exists j :: 0 <= j < |call.keyword| && call.keyword[j].name == name
  }

  predicate GivenTwice(sig: Signature, call: Call, i: nat)
    requires i < |sig.params|
  {
    ByPosition(sig, call, i) && ByKeyword(sig, i) && Named(call, sig.params[i].name)
  }

  predicate Given(sig: Signature, call: Call, i: nat)
    requires i < |sig.params|
  {
    ByPosition(sig, call, i) || (ByKeyword(sig, i) && Named(call, sig.params[i].name))
  }

  predicate Known(sig: Signature, name: string) {
    exists i :: 0 <= i < |sig.params| && ByKeyword(sig, i) && sig.params[i].name == name
  }

  // A call matches a signature if no positional argument is left over, no parameter is given twice,
  // no keyword is unknown and every required parameter is given.
  predicate Matches(sig: Signature, call: Call) {
    MatchesButForRepeats(sig, call) && forall i :: 0 <= i < |sig.params| ==> !GivenTwice(sig, call, i)
  }

  predicate MatchesButForRepeats(sig: Signature, call: Call) {
    && (sig.rest || |call.positional| <= Slots(sig.params, |sig.params|))
    && (sig.restKeywords || forall j :: 0 <= j < |call.keyword| ==> Known(sig, call.keyword[j].name))
    && (forall i :: 0 <= i < |sig.params| && sig.params[i].required ==> Given(sig, call, i))
  }

  // ----- what the accessors do, one parameter after another ----------------------------------

  // The first keyword of that name, or the number of keywords.
  function Find(keyword: seq<Keyword>, name: string): (j: nat)
    ensures j <= |keyword|
    ensures j < |keyword| ==> keyword[j].name == name
    ensures forall k :: 0 <= k < j ==> keyword[k].name != name
  {
    if keyword == [] then 0
    else if keyword[0].name == name then 0
    else
      var j := Find(keyword[1..], name);
      assert forall k :: 1 <= k < j + 1 ==> keyword[k] == keyword[1..][k - 1];
      j + 1
  }

  function Supplied(sig: Signature, call: Call, i: nat): Option<Value>
    requires i < |sig.params|
  {
    if ByPosition(sig, call, i) then Some(call.positional[Slots(sig.params, i)])
    else
      var j := Find(call.keyword, sig.params[i].name);
      if ByKeyword(sig, i) && j < |call.keyword| then Some(call.keyword[j].value) else None
  }

  // The keyword argument is consumed by one of the first `n` parameters.
  predicate Used(sig: Signature, call: Call, n: nat, j: nat)
    requires n <= |sig.params| && j < |call.keyword|
  {
    exists i :: 0 <= i < n && !ByPosition(sig, call, i) && ByKeyword(sig, i)
                && sig.params[i].name == call.keyword[j].name
  }

  function FirstMissing(sig: Signature, call: Call, n: nat): (m: nat)
    requires n <= |sig.params|
    ensures m <= n
    ensures forall i :: 0 <= i < m && sig.params[i].required ==> Supplied(sig, call, i).Some?
    ensures m < n ==> sig.params[m].required && Supplied(sig, call, m).None?
  {
    if n == 0 then 0
    else
      var m := FirstMissing(sig, call, n - 1);
      if m < n - 1 || (sig.params[n - 1].required && Supplied(sig, call, n - 1).None?) then m else n
  }

  function Unused(sig: Signature, call: Call, k: nat): seq<Keyword>
    requires k <= |call.keyword|
  {
    if k == 0 then []
    else
      Unused(sig, call, k - 1)
      + (if Used(sig, call, |sig.params|, k - 1) then [] else [call.keyword[k - 1]])
  }

  function Values(sig: Signature, call: Call, n: nat): seq<Option<Value>>
    requires n <= |sig.params|
  {
    seq(n, i requires 0 <= i < |sig.params| => Supplied(sig, call, i))
  }

  function Bind(sig: Signature, call: Call): Result<Bound, Error> {
    var n, slots := |sig.params|, Slots(sig.params, |sig.params|);
    var missing := FirstMissing(sig, call, n);
    var unused := Unused(sig, call, |call.keyword|);
    if missing < n then Err(Missing(sig.params[missing].name))
    else if |call.positional| > slots && !sig.rest then Err(Surplus(slots, |call.positional|))
    else if unused != [] && !sig.restKeywords then Err(Unexpected(unused[0].name))
    else
      Ok(Bound(Values(sig, call, n),
               if |call.positional| > slots then call.positional[slots..] else [],
               unused))
  }

  lemma {:induction false} UnusedEmpty(sig: Signature, call: Call, k: nat)
    requires k <= |call.keyword|
    ensures Unused(sig, call, k) == [] <==> forall j :: 0 <= j < k ==> Used(sig, call, |sig.params|, j)
  {
    if k > 0 {
      UnusedEmpty(sig, call, k - 1);
    }
  }

  lemma {:induction false} SuppliedGiven(sig: Signature, call: Call, i: nat)
    requires i < |sig.params|
    ensures Supplied(sig, call, i).Some? <==> Given(sig, call, i)
  {
    var j := Find(call.keyword, sig.params[i].name);
    if Named(call, sig.params[i].name) {
      assert j < |call.keyword|;
    }
  }

  lemma {:induction false} UsedKnown(sig: Signature, call: Call, j: nat)
    requires DistinctParams(sig.params) && j < |call.keyword|
    ensures Used(sig, call, |sig.params|, j) <==>
              && Known(sig, call.keyword[j].name)
              && forall i :: 0 <= i < |sig.params| && sig.params[i].name == call.keyword[j].name ==>
                   !GivenTwice(sig, call, i)
  {
    var name := call.keyword[j].name;
    assert Named(call, name);
    if Known(sig, name) {
      var i :| 0 <= i < |sig.params| && ByKeyword(sig, i) && sig.params[i].name == name;
      assert forall m :: 0 <= m < |sig.params| && sig.params[m].name == name ==> m == i;
      if ByPosition(sig, call, i) {
        assert GivenTwice(sig, call, i);
      } else {
        assert Used(sig, call, |sig.params|, j);
      }
    }
  }

  // Binding succeeds exactly for the calls that match, as long as the signature does not collect the
  // remaining keywords.  One that does lets a parameter be given both by position and by keyword,
  // and hands the second value over among the remaining keywords.
  lemma {:induction false} BindMatches(sig: Signature, call: Call)
    requires DistinctParams(sig.params)
    ensures Bind(sig, call).Ok? <==>
              MatchesButForRepeats(sig, call)
              && (sig.restKeywords || forall i :: 0 <= i < |sig.params| ==> !GivenTwice(sig, call, i))
  {
    var n := |sig.params|;
    forall i | 0 <= i < n
      ensures Supplied(sig, call, i).Some? <==> Given(sig, call, i)
    {
      SuppliedGiven(sig, call, i);
    }
    UnusedEmpty(sig, call, |call.keyword|);
    forall j | 0 <= j < |call.keyword|
      ensures Used(sig, call, n, j) <==>
                && Known(sig, call.keyword[j].name)
                && forall i :: 0 <= i < n && sig.params[i].name == call.keyword[j].name ==>
                     !GivenTwice(sig, call, i)
    {
      UsedKnown(sig, call, j);
    }
    var m := FirstMissing(sig, call, n);
    if i :| 0 <= i < n && GivenTwice(sig, call, i) {
      var j :| 0 <= j < |call.keyword| && call.keyword[j].name == sig.params[i].name;
      assert !Used(sig, call, n, j);
    }
  }

  // The exact condition under which binding decides as section 6.3.4 of the Python Language
  // Reference does: it goes wrong for every call with a repeated parameter that a signature with
  // remaining keywords would otherwise take, and for no other.
  lemma {:induction false} BindIsExactIff(sig: Signature, call: Call)
    requires DistinctParams(sig.params)
    ensures (Bind(sig, call).Ok? <==> Matches(sig, call)) <==>
              !(sig.restKeywords && MatchesButForRepeats(sig, call)
                && exists i :: 0 <= i < |sig.params| && GivenTwice(sig, call, i))
  {
    BindMatches(sig, call);
  }

  // `f(1, x=2)` for a callable with the parameter `x` and the remaining keywords.
  const REPEATING: Signature := Signature([Param("x", PositionalOrKeyword, true)], false, true)
  const REPEATED_CALL: Call := Call([1], [Keyword("x", 2)])

  lemma {:induction false} RepeatIsAccepted()
    ensures Bind(REPEATING, REPEATED_CALL) == Ok(Bound([Some(1)], [], [Keyword("x", 2)]))
    ensures !Matches(REPEATING, REPEATED_CALL)
  {
    assert Slots(REPEATING.params, 0) == 0;
    assert Slots(REPEATING.params, 1) == 1;
    assert ByPosition(REPEATING, REPEATED_CALL, 0);
    assert REPEATED_CALL.keyword[0].name == "x";
    assert GivenTwice(REPEATING, REPEATED_CALL, 0);
    assert FirstMissing(REPEATING, REPEATED_CALL, 0) == 0;
    assert !Used(REPEATING, REPEATED_CALL, 1, 0);
    assert Unused(REPEATING, REPEATED_CALL, 0) == [];
    assert Unused(REPEATING, REPEATED_CALL, 1) == [Keyword("x", 2)];
    assert Values(REPEATING, REPEATED_CALL, 1) == [Some(1)];
  }

  lemma {:induction false} SlotOwner(params: seq<Param>, n: nat, slot: nat) returns (i: nat)
    requires n <= |params| && slot < Slots(params, n)
    ensures i < n && !params[i].kind.KeywordOnly? && Slots(params, i) == slot
  {
    if slot == Slots(params, n - 1) {
      i := n - 1;
    } else {
      i := SlotOwner(params, n - 1, slot);
    }
  }

  lemma {:induction false} UnusedKept(sig: Signature, call: Call, k: nat, j: nat)
    requires j < k <= |call.keyword| && !Used(sig, call, |sig.params|, j)
    ensures call.keyword[j] in Unused(sig, call, k)
  {
    if j < k - 1 {
      UnusedKept(sig, call, k - 1, j);
    }
  }

  // A positional argument is the value of the parameter of its slot, or stands at its place among
  // the remaining ones.
  predicate PositionalKept(sig: Signature, call: Call, bound: Bound, p: nat)
    requires p < |call.positional| && |bound.values| == |sig.params|
  {
    var slots := Slots(sig.params, |sig.params|);
    if p >= slots then p - slots < |bound.rest| && bound.rest[p - slots] == call.positional[p]
    else
      exists i :: 0 <= i < |sig.params| && ByPosition(sig, call, i) && Slots(sig.params, i) == p
                  && bound.values[i] == Some(call.positional[p])
  }

  // A keyword is the value of the parameter of its name, or is handed over among the remaining ones.
  predicate KeywordKept(sig: Signature, bound: Bound, k: Keyword)
    requires |bound.values| == |sig.params|
  {
    || k in bound.restKeywords
    || exists i :: 0 <= i < |sig.params| && sig.params[i].name == k.name && bound.values[i] == Some(k.value)
  }

  lemma {:induction false} PositionalBound(sig: Signature, call: Call, p: nat)
    requires Bind(sig, call).Ok? && p < |call.positional|
    ensures PositionalKept(sig, call, Bind(sig, call).value, p)
  {
    if p < Slots(sig.params, |sig.params|) {
      var i := SlotOwner(sig.params, |sig.params|, p);
      assert ByPosition(sig, call, i);
      hide FirstMissing, Unused;
      assert Bind(sig, call).value.values[i] == Some(call.positional[p]);
    }
  }

  lemma {:induction false} KeywordBound(sig: Signature, call: Call, j: nat)
    requires DistinctKeywords(call.keyword) && Bind(sig, call).Ok? && j < |call.keyword|
    ensures KeywordKept(sig, Bind(sig, call).value, call.keyword[j])
  {
    if Used(sig, call, |sig.params|, j) {
      var i :| 0 <= i < |sig.params| && !ByPosition(sig, call, i) && ByKeyword(sig, i)
               && sig.params[i].name == call.keyword[j].name;
      assert Find(call.keyword, sig.params[i].name) == j;
      hide FirstMissing, Unused, Find, Slots;
      assert Bind(sig, call).value.values[i] == Some(call.keyword[j].value);
    } else {
      UnusedKept(sig, call, |call.keyword|, j);
      hide FirstMissing, Unused, Find, Slots;
    }
  }

  // A call that binds loses no argument.
  lemma {:induction false} NoArgumentLost(sig: Signature, call: Call)
    requires DistinctKeywords(call.keyword) && Bind(sig, call).Ok?
    ensures var bound := Bind(sig, call).value;
            && |bound.values| == |sig.params|
            && (forall p :: 0 <= p < |call.positional| ==> PositionalKept(sig, call, bound, p))
            && (forall j :: 0 <= j < |call.keyword| ==> KeywordKept(sig, bound, call.keyword[j]))
  {
    forall p | 0 <= p < |call.positional|
      ensures PositionalKept(sig, call, Bind(sig, call).value, p)
    {
      PositionalBound(sig, call, p);
    }
    forall j | 0 <= j < |call.keyword|
      ensures KeywordKept(sig, Bind(sig, call).value, call.keyword[j])
    {
      KeywordBound(sig, call, j);
    }
    hide FirstMissing, Unused, Slots, PositionalKept, KeywordKept;
  }

  // ----- what binding answers ----------------------------------------------------------------------

  // The first `n` parameters that can take a positional argument.
  function Positionals(params: seq<Param>, n: nat): set<nat>
    requires n <= |params|
  {
    set i | 0 <= i < n && params[i].kind != KeywordOnly
  }

  // Positional arguments go to them in declaration order.
  lemma {:induction false} SlotsCount(params: seq<Param>, n: nat)
    requires n <= |params|
    ensures Slots(params, n) == |Positionals(params, n)|
  {
    if n > 0 {
      SlotsCount(params, n - 1);
      var before := Positionals(params, n - 1);
      assert Positionals(params, n) == if params[n - 1].kind != KeywordOnly then before + {n - 1} else before;
      hide Positionals;
    }
  }

  // No parameter takes the keyword: none has its name, or the one that does has a positional argument already.
  predicate Leftover(sig: Signature, call: Call, j: nat)
    requires j < |call.keyword|
  {
    || !Known(sig, call.keyword[j].name)
    || exists i :: 0 <= i < |sig.params| && sig.params[i].name == call.keyword[j].name && GivenTwice(sig, call, i)
  }

  predicate FirstLeftover(sig: Signature, call: Call, j: nat) {
    j < |call.keyword| && Leftover(sig, call, j) && forall k :: 0 <= k < j ==> !Leftover(sig, call, k)
  }

  predicate RequiredGiven(sig: Signature, call: Call, n: nat)
    requires n <= |sig.params|
  {
    forall i :: 0 <= i < n && sig.params[i].required ==> Given(sig, call, i)
  }

  // A refusal names the first required parameter that is missing, else the surplus of positional arguments,
  // else the first keyword no parameter takes.
  lemma {:induction false} BindRefuses(sig: Signature, call: Call)
    requires DistinctParams(sig.params)
    ensures forall i: nat :: FirstLacking(sig, call, i) ==> Bind(sig, call) == Err(Missing(sig.params[i].name))
    ensures RequiredGiven(sig, call, |sig.params|) ==>
              var slots := Slots(sig.params, |sig.params|);
              && (|call.positional| > slots && !sig.rest ==> Bind(sig, call) == Err(Surplus(slots, |call.positional|)))
              && ((|call.positional| <= slots || sig.rest) && !sig.restKeywords ==>
                   forall j: nat :: FirstLeftover(sig, call, j) ==>
                     Bind(sig, call) == Err(Unexpected(call.keyword[j].name)))
  {
    MissingIs(sig, call);
    LeftoverIs(sig, call);
    hide Given, Supplied, Used, Leftover, Slots, Unused, Values, FirstMissing, FirstLacking, FirstLeftover,
        DistinctParams, RequiredGiven;
  }

  // The required parameter is the first that is not given.
  predicate FirstLacking(sig: Signature, call: Call, i: nat) {
    i < |sig.params| && sig.params[i].required && !Given(sig, call, i) && RequiredGiven(sig, call, i)
  }

  lemma {:induction false} MissingIs(sig: Signature, call: Call)
    ensures forall i: nat :: FirstLacking(sig, call, i) ==> FirstMissing(sig, call, |sig.params|) == i
    ensures RequiredGiven(sig, call, |sig.params|) ==> FirstMissing(sig, call, |sig.params|) == |sig.params|
  {
    forall i | 0 <= i < |sig.params|
      ensures Supplied(sig, call, i).Some? <==> Given(sig, call, i)
    {
      SuppliedGiven(sig, call, i);
    }
    hide Given, Supplied, FirstMissing;
  }

  lemma {:induction false} LeftoverIs(sig: Signature, call: Call)
    requires DistinctParams(sig.params)
    ensures forall j: nat :: FirstLeftover(sig, call, j) ==>
              Unused(sig, call, |call.keyword|) != [] && Unused(sig, call, |call.keyword|)[0] == call.keyword[j]
  {
    forall j | 0 <= j < |call.keyword|
      ensures Used(sig, call, |sig.params|, j) <==> !Leftover(sig, call, j)
    {
      UsedKnown(sig, call, j);
    }
    FirstUnused(sig, call, |call.keyword|);
    hide Used, Leftover, Unused, DistinctParams;
  }

  lemma {:induction false} FirstUnused(sig: Signature, call: Call, n: nat)
    requires n <= |call.keyword|
    ensures forall j :: (0 <= j < n && !Used(sig, call, |sig.params|, j)
                        && forall k :: 0 <= k < j ==> Used(sig, call, |sig.params|, k)) ==>
              Unused(sig, call, n) != [] && Unused(sig, call, n)[0] == call.keyword[j]
    ensures (forall j :: 0 <= j < n ==> Used(sig, call, |sig.params|, j)) <==> Unused(sig, call, n) == []
  {
    if n > 0 {
      FirstUnused(sig, call, n - 1);
    }
  }

  // The value of a parameter is the positional argument of its slot, else the keyword argument of its name,
  // else nothing; the positional arguments beyond the last slot remain.
  lemma {:induction false} BindGives(sig: Signature, call: Call)
    requires DistinctKeywords(call.keyword) && Bind(sig, call).Ok?
    ensures var bound, slots := Bind(sig, call).value, Slots(sig.params, |sig.params|);
            && |bound.values| == |sig.params|
            && (forall i :: 0 <= i < |sig.params| ==>
                 if ByPosition(sig, call, i) then
                   bound.values[i] == Some(call.positional[Slots(sig.params, i)])
                 else
                   && (bound.values[i].Some? <==> ByKeyword(sig, i) && Named(call, sig.params[i].name))
                   && (bound.values[i].Some? ==>
                        Keyword(sig.params[i].name, bound.values[i].value) in call.keyword))
            && bound.rest == if |call.positional| > slots then call.positional[slots..] else []
  {
    forall i | 0 <= i < |sig.params|
      ensures Supplied(sig, call, i).Some? <==> Given(sig, call, i)
    {
      SuppliedGiven(sig, call, i);
    }
    hide FirstMissing, Unused, Slots;
  }

  // The remaining keywords are those no parameter takes, in the order of the call.
  lemma {:induction false} RemainingKeywords(sig: Signature, call: Call)
    requires DistinctParams(sig.params) && DistinctKeywords(call.keyword) && Bind(sig, call).Ok?
    ensures var remaining := Bind(sig, call).value.restKeywords;
            && (forall j :: 0 <= j < |call.keyword| ==> (call.keyword[j] in remaining <==> Leftover(sig, call, j)))
            && InOrder(call.keyword, |call.keyword|, remaining)
  {
    forall j | 0 <= j < |call.keyword|
      ensures call.keyword[j] in Unused(sig, call, |call.keyword|) <==> Leftover(sig, call, j)
    {
      UsedKnown(sig, call, j);
      UnusedIff(sig, call, |call.keyword|, j);
    }
    UnusedInOrder(sig, call, |call.keyword|);
    hide FirstMissing, Unused, Slots, Values, Leftover;
  }

  // `some` picks from the first `n` of `all`, in their order and none twice.
  predicate InOrder(all: seq<Keyword>, n: nat, some: seq<Keyword>)
    requires n <= |all|
  {
    || some == []
    || exists j :: 0 <= j < n && some[|some| - 1] == all[j] && InOrder(all, j, some[..|some| - 1])
  }

  lemma {:induction false} UnusedIff(sig: Signature, call: Call, n: nat, j: nat)
    requires DistinctKeywords(call.keyword) && n <= |call.keyword| && j < |call.keyword|
    ensures call.keyword[j] in Unused(sig, call, n) <==> j < n && !Used(sig, call, |sig.params|, j)
  {
    if n > 0 {
      UnusedIff(sig, call, n - 1, j);
      assert call.keyword[n - 1] == call.keyword[j] ==> n - 1 == j;
    }
  }

  lemma {:induction false} UnusedInOrder(sig: Signature, call: Call, n: nat)
    requires n <= |call.keyword|
    ensures InOrder(call.keyword, n, Unused(sig, call, n))
  {
    if n > 0 {
      UnusedInOrder(sig, call, n - 1);
      var before, after := Unused(sig, call, n - 1), Unused(sig, call, n);
      if Used(sig, call, |sig.params|, n - 1) {
        assert after == before;
        InOrderGrows(call.keyword, n - 1, n, after);
      } else {
        assert after[..|after| - 1] == before && after[|after| - 1] == call.keyword[n - 1];
      }
    }
  }

  lemma {:induction false} InOrderGrows(all: seq<Keyword>, n: nat, m: nat, some: seq<Keyword>)
    requires n <= m <= |all| && InOrder(all, n, some)
    ensures InOrder(all, m, some)
  {
  }
}
