/** The arguments of one call, with a consumed flag for each of them. */
module Args {
  import opened Wrappers
  import opened Arguments

  function Count(flags: seq<bool>, n: nat): nat
    requires n <= |flags|
  {
    if n == 0 then 0 else Count(flags, n - 1) + (if flags[n - 1] then 1 else 0)
  }

  lemma {:induction false} CountPrefix(flags: seq<bool>, n: nat, slots: nat)
    requires n <= |flags| && forall i :: 0 <= i < n ==> (flags[i] <==> i < slots)
    ensures Count(flags, n) == if n < slots then n else slots
  {
    if n > 0 {
      CountPrefix(flags, n - 1, slots);
    }
  }

  // One more parameter consumes at most the keyword of its name, and only if it took no position.
  lemma {:induction false} UsedNext(sig: Signature, call: Call, i: nat, j: nat)
    requires i < |sig.params| && j < |call.keyword| && DistinctKeywords(call.keyword)
    ensures Used(sig, call, i + 1, j) <==>
              || Used(sig, call, i, j)
              || (!ByPosition(sig, call, i) && ByKeyword(sig, i) && j == Find(call.keyword, sig.params[i].name))
  {
    if !ByPosition(sig, call, i) && ByKeyword(sig, i) && sig.params[i].name == call.keyword[j].name {
      assert Find(call.keyword, sig.params[i].name) == j;
    }
  }

  class Args {
    var positional: seq<Value>
    var keyword: seq<Keyword>
    var consumedPositional: seq<bool>
    var consumedKeyword: seq<bool>

    constructor (positional: seq<Value>, keyword: seq<Keyword>)
      ensures Untouched() && Snap() == Call(positional, keyword)
    {
      this.positional, this.keyword := positional, keyword;
      consumedPositional := seq(|positional|, _ => false);
      consumedKeyword := seq(|keyword|, _ => false);
    }

    ghost function Snap(): Call
      reads this
    {
      Call(positional, keyword)
    }

    ghost predicate Valid()
      reads this
    {
      |consumedPositional| == |positional| && |consumedKeyword| == |keyword|
    }

    ghost predicate Untouched()
      reads this
    {
      && Valid()
      && (forall i :: 0 <= i < |positional| ==> !consumedPositional[i])
      && (forall j :: 0 <= j < |keyword| ==> !consumedKeyword[j])
    }

    // The flags after the first `n` parameters of a signature were asked for.
    ghost predicate Consumed(sig: Signature, n: nat)
      requires n <= |sig.params|
      reads this
    {
      && Valid()
      && (forall i :: 0 <= i < |positional| ==> (consumedPositional[i] <==> i < Slots(sig.params, n)))
      && (forall j :: 0 <= j < |keyword| ==> (consumedKeyword[j] <==> Used(sig, Snap(), n, j)))
    }

    method Positional(index: nat) returns (value: Option<Value>)
      requires Valid()
      modifies this`consumedPositional
      ensures Valid()
      ensures value == if index < |positional| then Some(positional[index]) else None
      ensures consumedPositional ==
              if index < |positional| then old(consumedPositional)[index := true] else old(consumedPositional)
    {
      if index >= |positional| {
        return None;
      }
      consumedPositional := consumedPositional[index := true];
      return Some(positional[index]);
    }

    method Keyword(name: string) returns (value: Option<Value>)
      requires Valid()
      modifies this`consumedKeyword
      ensures Valid()
      ensures var j := Find(keyword, name);
              if j < |keyword| then
                value == Some(keyword[j].value) && consumedKeyword == old(consumedKeyword)[j := true]
              else value == None && consumedKeyword == old(consumedKeyword)
    {
      var j := 0;
      while j < |keyword| && keyword[j].name != name
        invariant 0 <= j <= |keyword|
        invariant forall k :: 0 <= k < j ==> keyword[k].name != name
      {
        j := j + 1;
      }
      if j == |keyword| {
        return None;
      }
      consumedKeyword := consumedKeyword[j := true];
      return Some(keyword[j].value);
    }

    // One parameter, through the accessor its kind uses.
    method ValueOf(kind: Kind, index: nat, name: string) returns (value: Option<Value>)
      requires Valid()
      modifies this`consumedPositional, this`consumedKeyword
      ensures Valid()
      ensures var position := !kind.KeywordOnly? && index < |positional|;
              var j := Find(keyword, name);
              var byName := !position && !kind.PositionalOnly? && j < |keyword|;
              && value == (if position then Some(positional[index])
                           else if byName then Some(keyword[j].value) else None)
              && consumedPositional ==
                   (if position then old(consumedPositional)[index := true] else old(consumedPositional))
              && consumedKeyword == (if byName then old(consumedKeyword)[j := true] else old(consumedKeyword))
    {
      match kind {
        case PositionalOnly => value := Positional(index);
        case KeywordOnly => value := Keyword(name);
        case PositionalOrKeyword =>
          value := Positional(index);
          if value.None? {
            value := Keyword(name);
          }
      }
    }

    method RestValues(index: nat) returns (values: seq<Value>)
      requires Valid()
      modifies this`consumedPositional
      ensures Valid()
      ensures values == if index < |positional| then positional[index..] else []
      ensures forall i :: 0 <= i < |positional| ==>
                (consumedPositional[i] <==> old(consumedPositional)[i] || i >= index)
    {
      if index >= |positional| {
        return [];
      }
      for i := index to |positional|
        invariant Valid()
        invariant forall k :: 0 <= k < |positional| ==>
                    (consumedPositional[k] <==> old(consumedPositional)[k] || index <= k < i)
      {
        consumedPositional := consumedPositional[i := true];
      }
      return positional[index..];
    }

    method RestKeywords(ghost sig: Signature) returns (values: seq<Arguments.Keyword>)
      requires Valid()
      requires forall j :: 0 <= j < |keyword| ==> (consumedKeyword[j] <==> Used(sig, Snap(), |sig.params|, j))
      modifies this`consumedKeyword
      ensures Valid() && values == Unused(sig, Snap(), |keyword|)
      ensures forall j :: 0 <= j < |keyword| ==> consumedKeyword[j]
    {
      values := [];
      for j := 0 to |keyword|
        invariant Valid() && values == Unused(sig, Snap(), j)
        invariant forall k :: 0 <= k < j ==> consumedKeyword[k]
        invariant forall k :: j <= k < |keyword| ==> consumedKeyword[k] == old(consumedKeyword)[k]
      {
        if !consumedKeyword[j] {
          values := values + [keyword[j]];
        }
        consumedKeyword := consumedKeyword[j := true];
      }
    }

    method CountConsumed() returns (n: nat)
      requires Valid()
      ensures n == Count(consumedPositional, |positional|)
    {
      n := 0;
      for i := 0 to |positional|
        invariant n == Count(consumedPositional, i)
      {
        if consumedPositional[i] {
          n := n + 1;
        }
      }
    }

    // Refuses the first argument that nobody consumed, positional ones first.
    method Finish() returns (error: Option<Error>)
      requires Valid()
      ensures error.None? <==>
                && (forall i :: 0 <= i < |positional| ==> consumedPositional[i])
                && (forall j :: 0 <= j < |keyword| ==> consumedKeyword[j])
      ensures (exists i :: 0 <= i < |positional| && !consumedPositional[i]) ==>
                error == Some(Surplus(Count(consumedPositional, |positional|), |positional|))
      ensures error.Some? ==>
                (exists i :: 0 <= i < |positional| && !consumedPositional[i])
                || exists j :: 0 <= j < |keyword| && !consumedKeyword[j] && error.value == Unexpected(keyword[j].name)
                               && forall k :: 0 <= k < j ==> consumedKeyword[k]
    {
      for i := 0 to |positional|
        invariant forall k :: 0 <= k < i ==> consumedPositional[k]
      {
        if !consumedPositional[i] {
          var n := CountConsumed();
          return Some(Surplus(n, |positional|));
        }
      }
      for j := 0 to |keyword|
        invariant forall k :: 0 <= k < j ==> consumedKeyword[k]
      {
        if !consumedKeyword[j] {
          return Some(Unexpected(keyword[j].name));
        }
      }
      return None;
    }

    method Ask(sig: Signature, i: nat, slot: nat) returns (value: Option<Value>)
      requires i < |sig.params| && slot == Slots(sig.params, i)
      requires Consumed(sig, i) && DistinctKeywords(keyword)
      modifies this`consumedPositional, this`consumedKeyword
      ensures Consumed(sig, i + 1) && value == Supplied(sig, Snap(), i)
    {
      hide Find, Used;
      ghost var call := Snap();
      value := ValueOf(sig.params[i].kind, slot, sig.params[i].name);
      forall j | 0 <= j < |keyword|
        ensures consumedKeyword[j] <==> Used(sig, call, i + 1, j)
      {
        UsedNext(sig, call, i, j);
      }
    }

    // Takes what no parameter took, and finishes.
    method TakeRest(sig: Signature, slot: nat) returns (result: Result<(seq<Value>, seq<Arguments.Keyword>), Error>)
      requires Consumed(sig, |sig.params|) && slot == Slots(sig.params, |sig.params|)
      modifies this`consumedPositional, this`consumedKeyword
      ensures var unused := Unused(sig, Snap(), |keyword|);
              result ==
              if |positional| > slot && !sig.rest then Err(Surplus(slot, |positional|))
              else if unused != [] && !sig.restKeywords then Err(Unexpected(unused[0].name))
              else Ok((if |positional| > slot then positional[slot..] else [], unused))
    {
      var rest: seq<Value>, restKeywords: seq<Arguments.Keyword> := [], [];
      if sig.rest {
        rest := RestValues(slot);
      }
      if sig.restKeywords {
        restKeywords := RestKeywords(sig);
      } else {
        FirstUnused(sig, Snap(), |keyword|);
      }
      if |positional| > slot && !sig.rest {
        assert !consumedPositional[slot];
        CountPrefix(consumedPositional, |positional|, slot);
      }
      hide Used, Unused, Slots, Count;
      var error := Finish();
      if error.Some? {
        return Err(error.value);
      }
      assert !sig.restKeywords ==> forall j :: 0 <= j < |keyword| ==> Used(sig, Snap(), |sig.params|, j);
      assert !sig.restKeywords ==> Unused(sig, Snap(), |keyword|) == restKeywords;
      return Ok((rest, restKeywords));
    }

    // Asks for one parameter after another, then for the remaining arguments, and finishes.
    method Bind(sig: Signature) returns (result: Result<Bound, Error>)
      requires Untouched() && DistinctKeywords(keyword)
      modifies this`consumedPositional, this`consumedKeyword
      ensures result == Arguments.Bind(sig, Snap())
    {
      hide Supplied, FirstMissing, Unused, DistinctKeywords;
      var values: seq<Option<Value>> := [];
      var slot := 0;
      for i := 0 to |sig.params|
        invariant Consumed(sig, i) && slot == Slots(sig.params, i)
        invariant values == Values(sig, Snap(), i)
        invariant forall k :: 0 <= k < i && sig.params[k].required ==> Supplied(sig, Snap(), k).Some?
      {
        var value := Ask(sig, i, slot);
        if value.None? && sig.params[i].required {
          return Err(Missing(sig.params[i].name));
        }
        values := values + [value];
        if !sig.params[i].kind.KeywordOnly? {
          slot := slot + 1;
        }
      }
      hide Consumed, Slots;
      var rest := TakeRest(sig, slot);
      match rest {
        case Err(error) => return Err(error);
        case Ok((remaining, keywords)) => return Ok(Bound(values, remaining, keywords));
      }
    }

    // The receiver of a method call leaves the arguments as if they had come without it.
    method SplitReceiver() returns (receiver: Option<Value>)
      requires Untouched()
      modifies this`positional, this`consumedPositional
      ensures Untouched()
      ensures if old(positional) == [] then receiver == None && positional == []
              else receiver == Some(old(positional)[0]) && positional == old(positional)[1..]
    {
      if positional == [] {
        return None;
      }
      receiver := Some(positional[0]);
      positional := positional[1..];
      consumedPositional := consumedPositional[1..];
    }

    // A method call binds exactly when its receiver is there and the other arguments match, up to the
    // repeats that a signature with remaining keywords lets through.
    method BindMethod(sig: Signature) returns (result: Option<Result<Bound, Error>>)
      requires Untouched() && DistinctKeywords(keyword) && DistinctParams(sig.params)
      modifies this`positional, this`consumedPositional, this`consumedKeyword
      ensures result.None? <==> old(positional) == []
      ensures result.Some? ==> result.value == Arguments.Bind(sig, Call(old(positional)[1..], old(keyword)))
      ensures result.Some? && result.value.Ok? <==>
                && old(positional) != []
                && var call := Call(old(positional)[1..], old(keyword));
                   && MatchesButForRepeats(sig, call)
                   && (sig.restKeywords || forall i :: 0 <= i < |sig.params| ==> !GivenTwice(sig, call, i))
    {
      var receiver := SplitReceiver();
      if receiver.None? {
        return None;
      }
      BindMatches(sig, Snap());
      var bound := Bind(sig);
      return Some(bound);
    }
  }
}
