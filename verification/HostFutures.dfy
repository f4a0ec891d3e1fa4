/**
 The queue of pending host futures with its three fields updated in place.  What a future does
 while it is polled, and what a delivery does while it runs, is given as a finite tree of calls
 back into the queue; every execution is a run of the state machine of `FutureRuns`.
 */
module HostFutures {
  import opened Wrappers
  import opened FutureRuns

  datatype Act =
    | Registers
    | PollsAll(waker: Waker, polls: seq<Poll>)
    | Publishes(deliveries: seq<Delivery>)

  // What one poll does and returns; a future beyond the end of the list does nothing and is pending.
  datatype Poll = Poll(acts: seq<Act>, outcome: Option<nat>)

  datatype Delivery = IsCancelled | Delivers(acts: seq<Act>) | Fails(acts: seq<Act>)

  function OutcomeOf(polls: seq<Poll>, i: nat): Option<nat> {
    if i < |polls| then polls[i].outcome else None
  }

  // The futures of a batch that are still pending after it was polled, in their old order.
  function Survivors(batch: seq<Fut>, polls: seq<Poll>, n: nat): seq<Fut>
    requires n <= |batch|
  {
    if n == 0 then []
    else Survivors(batch, polls, n - 1) + (if OutcomeOf(polls, n - 1).None? then [batch[n - 1]] else [])
  }

  // The results of the futures of a batch that are finished after it was polled, in their old order.
  function Results(batch: seq<Fut>, polls: seq<Poll>, n: nat): seq<Completed>
    requires n <= |batch|
  {
    if n == 0 then []
    else
      Results(batch, polls, n - 1)
      + (match OutcomeOf(polls, n - 1) case None => [] case Some(outcome) => [Completed(batch[n - 1], outcome)])
  }

  // The list ends with these results.
  predicate EndsWith(ready: seq<Completed>, results: seq<Completed>) {
    |results| <= |ready| && ready[|ready| - |results|..] == results
  }

  lemma {:induction false} SurvivorsWait(batch: seq<Fut>, polls: seq<Poll>, n: nat)
    requires n <= |batch|
    ensures forall f :: f in Survivors(batch, polls, n) ==> f in batch
    ensures forall i :: 0 <= i < n && OutcomeOf(polls, i).None? ==> batch[i] in Survivors(batch, polls, n)
  {
    if n > 0 {
      SurvivorsWait(batch, polls, n - 1);
    }
  }

  // Each future of a batch is at its place among the survivors or among the results, as its poll returned.
  lemma {:induction false} BatchIsSplit(batch: seq<Fut>, polls: seq<Poll>, n: nat, i: nat)
    requires i < n <= |batch|
    ensures |Survivors(batch, polls, n)| + |Results(batch, polls, n)| == n
    ensures |Survivors(batch, polls, i)| + |Results(batch, polls, i)| == i
    ensures Survivors(batch, polls, i) <= Survivors(batch, polls, n)
    ensures Results(batch, polls, i) <= Results(batch, polls, n)
    ensures var survivors, results := Survivors(batch, polls, n), Results(batch, polls, n);
            var waiting, finished := |Survivors(batch, polls, i)|, |Results(batch, polls, i)|;
            if i < |polls| && polls[i].outcome.Some? then
              finished < |results| && results[finished] == Completed(batch[i], polls[i].outcome.value)
            else waiting < |survivors| && survivors[waiting] == batch[i]
  {
    if i < n - 1 {
      BatchIsSplit(batch, polls, n - 1, i);
    } else if i > 0 {
      BatchIsSplit(batch, polls, i, i - 1);
    }
  }

  // What no call into the queue undoes.
  ghost predicate Kept(s: State, t: State) {
    && s.next <= t.next && s.passes <= t.passes
    && (forall f :: f in s.outcome ==> f in t.outcome && t.outcome[f] == s.outcome[f])
    && s.resolved <= t.resolved && s.cancelled <= t.cancelled
    && (forall f :: f in t.entries ==> f in s.entries || f >= s.next)
  }

  // Whatever unfinished future was polled meanwhile was polled by a pass opened meanwhile, except
  // that a pass open before may have polled futures of its own.
  ghost predicate NewPolls(s: State, t: State, own: seq<Fut>) {
    forall f :: f in t.lastPoll && f !in t.outcome ==>
      || f in own
      || (f in s.lastPoll && t.lastPoll[f] == s.lastPoll[f])
      || t.lastPoll[f].pass >= s.passes
  }

  ghost predicate Later(s: State, t: State) {
    Kept(s, t) && t.stack == s.stack && NewPolls(s, t, [])
  }

  // The future was last polled by that pass.
  predicate PolledBy(s: State, f: Fut, mark: Mark) {
    f in s.lastPoll && s.lastPoll[f] == mark
  }

  // The innermost batch after its next future was polled.
  function Polled(top: Frame, outcome: Option<nat>): Frame
    requires top.Polling? && top.rest != []
  {
    var f := top.rest[0];
    Polling(top.mark, None, top.rest[1..],
            top.pending + (if outcome.None? then [f] else []),
            top.done + (if outcome.Some? then [Completed(f, outcome.value)] else []))
  }

  lemma {:induction false} KeptOutcomes(s: State, t: State)
    requires Kept(s, t)
    ensures forall f :: f in s.outcome ==> f in t.outcome && t.outcome[f] == s.outcome[f]
  {
  }

  lemma {:induction false} KeptTrans(s: State, t: State, u: State)
    requires Kept(s, t) && Kept(t, u)
    ensures Kept(s, u)
  {
  }

  lemma {:induction false} NewPollsTrans(s: State, t: State, u: State, own: seq<Fut>, more: seq<Fut>)
    requires Kept(s, t) && Kept(t, u) && NewPolls(s, t, own) && NewPolls(t, u, more)
    requires forall f :: f in more ==> f in own
    ensures NewPolls(s, u, own)
  {
  }

  lemma {:induction false} LaterTrans(s: State, t: State, u: State)
    requires Later(s, t) && Later(t, u)
    ensures Later(s, u)
  {
    KeptTrans(s, t, u);
    NewPollsTrans(s, t, u, [], []);
    hide Kept, NewPolls;
  }

  // The first `n` drained results reached their waiters, or were found cancelled.
  ghost predicate Settled(s: State, drained: seq<Completed>, deliveries: seq<Delivery>, n: nat)
    requires n <= |drained|
  {
    forall i :: 0 <= i < n ==>
      drained[i] in (if i < |deliveries| && deliveries[i].IsCancelled? then s.cancelled else s.resolved)
  }

  lemma {:induction false} NoneSettled(s: State, drained: seq<Completed>, deliveries: seq<Delivery>)
    ensures Settled(s, drained, deliveries, 0)
  {
  }

  lemma {:induction false} StillSettled(s: State, t: State, drained: seq<Completed>, deliveries: seq<Delivery>, n: nat)
    requires n <= |drained| && Settled(s, drained, deliveries, n)
    requires s.resolved <= t.resolved && s.cancelled <= t.cancelled
    ensures Settled(t, drained, deliveries, n)
  {
    forall c | c in s.resolved
      ensures c in t.resolved
    {
      assert s.resolved[c] <= t.resolved[c];
    }
    forall c | c in s.cancelled
      ensures c in t.cancelled
    {
      assert s.cancelled[c] <= t.cancelled[c];
    }
  }

  // A poll that came back to its own frame can end.
  lemma {:induction false} PollEnds(s: State, t: State, outcome: Option<nat>)
    requires Enabled(s, Begin) && Later(Next(s, Begin), t)
    requires Top(s).rest[0] !in t.outcome
    ensures Enabled(t, End(outcome))
    ensures var u := Next(t, End(outcome));
            && Kept(s, u) && u.stack == Below(s) + [Polled(Top(s), outcome)]
            && (outcome.Some? ==> u.outcome == t.outcome[Top(s).rest[0] := outcome.value])
            && u.entries == t.entries && u.polling == t.polling && u.ready == t.ready
            && NewPolls(s, u, [Top(s).rest[0]])
  {
    var f, top := Top(s).rest[0], Top(s);
    assert Top(t) == Polling(top.mark, Some(f), top.rest[1..], top.pending, top.done);
    var u := Next(t, End(outcome));
    assert u.stack == Below(t) + [Top(u)] && Below(t) == Below(s);
    assert top.pending + [] == top.pending && top.done + [] == top.done;
  }

  lemma {:induction false} PublishOpens(s: State)
    requires Enabled(s, Drain)
    ensures Kept(s, Next(s, Drain)) && Next(s, Drain).stack == s.stack + [Publishing(s.ready)]
    ensures NewPolls(s, Next(s, Drain), [])
  {
  }

  lemma {:induction false} PublishEnds(s: State, t: State)
    requires Kept(s, t) && NewPolls(s, t, []) && t.stack == s.stack + [Publishing([])]
    ensures Enabled(t, EndPublish) && Later(s, Next(t, EndPublish))
    ensures Next(t, EndPublish) == t.(stack := s.stack)
  {
    assert Below(t) == s.stack;
  }

  lemma {:induction false} BatchOpens(s: State, waker: Waker)
    requires Enabled(s, Open(waker))
    ensures var t := Next(s, Open(waker));
            && Kept(t, t) && NewPolls(t, t, s.entries)
            && t.stack == s.stack + [Polling(Mark(waker, s.passes), None, s.entries, [], [])]
  {
  }

  // The innermost batch between two of its polls.
  lemma {:induction false} BatchTop(
    s: State, below: seq<Frame>, mark: Mark, batch: seq<Fut>, i: nat, pending: seq<Fut>, done: seq<Completed>)
    requires i < |batch| && s.stack == below + [Polling(mark, None, batch[i..], pending, done)]
    ensures Enabled(s, Begin) && Below(s) == below && Top(s).rest[0] == batch[i]
    ensures Polled(Top(s), None) == Polling(mark, None, batch[i + 1..], pending + [batch[i]], done)
    ensures forall outcome :: Polled(Top(s), Some(outcome)) ==
              Polling(mark, None, batch[i + 1..], pending, done + [Completed(batch[i], outcome)])
  {
    assert batch[i..][0] == batch[i] && batch[i..][1..] == batch[i + 1..];
    assert pending + [] == pending && done + [] == done;
  }

  lemma {:induction false} PolledIsUnfinished(s: State)
    requires Inv(s) && PollsAt(s) && Top(s).current.Some?
    ensures Top(s).current.value !in s.outcome
  {
    TopParts(s);
    hide StackLine, StackCount, StackSize, Places;
    assert Top(s).current.value in FrameLine(Top(s));
    assert Top(s).current.value in Line(s);
  }

  // A batch whose futures were all polled can be settled in front of what was registered meanwhile.
  lemma {:induction false} BatchSettles(
    s: State, t: State, waker: Waker, pending: seq<Fut>, done: seq<Completed>)
    requires Enabled(s, Open(waker)) && Kept(Next(s, Open(waker)), t)
    requires NewPolls(Next(s, Open(waker)), t, s.entries) && Marked(t)
    requires t.stack == s.stack + [Polling(Mark(waker, s.passes), None, [], pending, done)]
    requires forall f :: f in pending ==> f in s.entries
    requires forall f :: f in s.entries ==> f in pending || f in t.outcome
    ensures Enabled(t, Close) && Top(t).pending == pending && Top(t).done == done
    ensures Later(s, Next(t, Close)) && Next(t, Close).entries == pending + t.entries
    ensures Next(t, Close).outcome == t.outcome && Next(t, Close).lastPoll == t.lastPoll
    ensures forall f :: f in t.entries ==> f >= s.next
    ensures forall f :: f in pending ==> PolledBy(t, f, Mark(waker, s.passes))
  {
    assert Below(t) == s.stack;
    forall f | f in pending
      ensures PolledBy(t, f, Mark(waker, s.passes))
    {
      assert Waits(t.stack[|s.stack|], f);
    }
    hide Marked, Waits;
  }

  lemma {:induction false} InvMarked(s: State)
    requires Inv(s)
    ensures Marked(s)
  {
  }

  lemma {:induction false} SettledCovers(s: State, polled: State, t: State, waker: Waker, pending: seq<Fut>)
    requires Inv(s) && Inv(t) && Free(s) && NewPolls(Next(s, Open(waker)), polled, s.entries)
    requires t.entries == pending + polled.entries && t.outcome == polled.outcome && t.lastPoll == polled.lastPoll
    requires forall f :: f in pending ==> f in s.entries && PolledBy(polled, f, Mark(waker, s.passes))
    requires forall f :: f in polled.entries ==> f >= s.next
    ensures forall f :: f in t.entries ==> (PolledBy(t, f, Mark(waker, s.passes)) <==> f < s.next)
  {
    assert t.entries[..|pending|] == pending && t.entries[|pending|..] == polled.entries;
    PassCovers(s, t, waker, pending);
  }

  // What is queued after a pass was last polled by that pass exactly if it was registered before it.
  lemma {:induction false} PassCovers(
    s: State, t: State, waker: Waker, pending: seq<Fut>)
    requires Inv(s) && Free(s) && NewPolls(Next(s, Open(waker)), t, s.entries)
    requires Inv(t)
    requires |pending| <= |t.entries| && pending == t.entries[..|pending|]
    requires forall f :: f in pending ==> f in s.entries && PolledBy(t, f, Mark(waker, s.passes))
    requires forall f :: f in t.entries[|pending|..] ==> f >= s.next
    ensures forall f :: f in t.entries ==> (PolledBy(t, f, Mark(waker, s.passes)) <==> f < s.next)
  {
    assert t.entries == pending + t.entries[|pending|..];
    forall f | f in s.entries
      ensures f < s.next
    {
      assert f in Line(s);
    }
    forall f | f in t.entries && f >= s.next
      ensures !PolledBy(t, f, Mark(waker, s.passes))
    {
      assert f in Line(t);
      assert f !in s.entries;
    }
    hide Line, Places, Increasing;
  }

  lemma {:induction false} RunsAppend(s: State, a: seq<Action>, b: seq<Action>)
    requires Runs(s, a) && Runs(Run(s, a), b)
    ensures Runs(s, a + b) && Run(s, a + b) == Run(Run(s, a), b)
    decreases |a|
  {
    if a == [] {
      assert a + b == b;
    } else {
      assert (a + b)[0] == a[0] && (a + b)[1..] == a[1..] + b;
      RunsAppend(Next(s, a[0]), a[1..], b);
    }
  }

  lemma {:induction false} RunsOne(s: State, a: Action)
    requires Enabled(s, a)
    ensures Runs(s, [a]) && Run(s, [a]) == Next(s, a)
  {
    assert [a][1..] == [];
  }

  lemma {:induction false} RunsSnoc(s: State, trace: seq<Action>, a: Action)
    requires Runs(s, trace) && Enabled(Run(s, trace), a)
    ensures Runs(s, trace + [a]) && Run(s, trace + [a]) == Next(Run(s, trace), a)
  {
    RunsOne(Run(s, trace), a);
    RunsAppend(s, trace, [a]);
  }

  class PendingHostFutures {
    var entries: seq<Fut>
    var polling: nat
    var ready: seq<Completed>
    // Futures are numbered as they are registered.
    var registered: Fut
    // The calls still open and the history of the queue.
    ghost var run: State

    ghost predicate Valid()
      reads this
    {
      entries == run.entries && polling == run.polling && ready == run.ready && registered == run.next && Inv(run)
    }

    constructor ()
      ensures Valid() && run == Init()
    {
      entries, polling, ready, registered := [], 0, [], 0;
      run := Init();
    }

    // Only the ghost history moves: a poll begins or ends, a delivery is made.
    ghost method Advance(a: Action)
      requires Valid() && Enabled(run, a)
      requires Next(run, a).entries == entries && Next(run, a).polling == polling
      requires Next(run, a).ready == ready && !a.Register?
      modifies this`run
      ensures Valid() && run == Next(old(run), a)
    {
      hide Inv;
      StepKeepsInv(run, a);
      run := Next(run, a);
    }

    method HasNothing() returns (r: bool)
      requires Valid()
      ensures r <==> run.entries == [] && OpenBatchesEmpty(run.stack) && run.ready == []
    {
      SizeZero(run.stack);
      return entries == [] && polling == 0 && ready == [];
    }

    method HasReady() returns (r: bool)
      requires Valid()
      ensures r <==> run.ready != []
    {
      return ready != [];
    }

    method RegisterFuture() returns (f: Fut)
      requires Valid() && Free(run)
      modifies this
      ensures Valid() && f == old(run).next && run == Next(old(run), Register)
    {
      hide Inv;
      StepKeepsInv(run, Register);
      f := registered;
      registered := registered + 1;
      entries := entries + [f];
      run := Next(run, Register);
    }

    method TakeEntries(ghost waker: Waker) returns (batch: seq<Fut>)
      requires Valid() && Free(run)
      modifies this
      ensures Valid() && batch == old(entries) && run == Next(old(run), Open(waker))
    {
      hide Inv;
      StepKeepsInv(run, Open(waker));
      batch := entries;
      entries := [];
      polling := polling + |batch|;
      run := Next(run, Open(waker));
    }

    method SettleBatch(pending: seq<Fut>, done: seq<Completed>)
      requires Valid() && Enabled(run, Close)
      requires Top(run).pending == pending && Top(run).done == done
      modifies this
      ensures Valid() && run == Next(old(run), Close)
      ensures entries == pending + old(entries) && ready == old(ready) + done
    {
      CloseNeverUnderflows(run);
      hide Inv;
      StepKeepsInv(run, Close);
      polling := polling - (|pending| + |done|);
      entries := pending + entries;
      ready := ready + done;
      run := Next(run, Close);
    }

    method DrainReady() returns (drained: seq<Completed>)
      requires Valid() && Free(run)
      modifies this
      ensures Valid() && drained == old(ready) && run == Next(old(run), Drain)
    {
      hide Inv;
      StepKeepsInv(run, Drain);
      drained := ready;
      ready := [];
      run := Next(run, Drain);
    }

    // What a poll or a delivery does with the queue while it is in progress.
    method Perform(acts: seq<Act>) returns (ghost trace: seq<Action>)
      requires Valid() && Free(run)
      modifies this
      ensures Valid() && Later(old(run), run)
      ensures Runs(old(run), trace) && run == Run(old(run), trace)
      decreases acts, 2
    {
      if acts == [] {
        hide Inv;
        return [];
      }
      ghost var first;
      first := PerformOne(acts[0]);
      ghost var between := run;
      ghost var rest := Perform(acts[1..]);
      RunsAppend(old(run), first, rest);
      LaterTrans(old(run), between, run);
      hide Run, Runs, Later;
      return first + rest;
    }

    method PerformOne(act: Act) returns (ghost trace: seq<Action>)
      requires Valid() && Free(run)
      modifies this
      ensures Valid() && Later(old(run), run)
      ensures Runs(old(run), trace) && run == Run(old(run), trace)
      decreases act, 2
    {
      match act {
        case Registers =>
          var f := RegisterFuture();
          RunsOne(old(run), Register);
          return [Register];
        case PollsAll(waker, polls) => trace := PollAll(waker, polls);
        case Publishes(deliveries) =>
          var ok;
          ok, trace := Publish(deliveries);
      }
    }

    // One turn of the loop of `poll_all`: the next future of the innermost batch is polled, and may
    // itself call back into the queue before it answers.
    method PollNext(poll: Poll) returns (ghost trace: seq<Action>)
      requires Valid() && Enabled(run, Begin)
      modifies this
      ensures Valid() && Runs(old(run), trace) && run == Run(old(run), trace)
      ensures Kept(old(run), run) && NewPolls(old(run), run, [Top(old(run)).rest[0]])
      ensures run.stack == Below(old(run)) + [Polled(Top(old(run)), poll.outcome)]
      ensures poll.outcome.Some? ==>
                var f := Top(old(run)).rest[0]; f in run.outcome && run.outcome[f] == poll.outcome.value
      decreases poll
    {
      hide Run, Runs, Inv;
      RunsOne(run, Begin);
      Advance(Begin);
      ghost var inner := Perform(poll.acts);
      PolledIsUnfinished(run);
      PollEnds(old(run), run, poll.outcome);
      hide Next, Polled, Kept, NewPolls, Top, Below;
      RunsAppend(old(run), [Begin], inner);
      RunsSnoc(old(run), [Begin] + inner, End(poll.outcome));
      Advance(End(poll.outcome));
      return [Begin] + inner + [End(poll.outcome)];
    }

    method PollIdle() returns (ghost trace: seq<Action>)
      requires Valid() && Enabled(run, Begin)
      modifies this
      ensures Valid() && Runs(old(run), trace) && run == Run(old(run), trace)
      ensures Kept(old(run), run) && NewPolls(old(run), run, [Top(old(run)).rest[0]])
      ensures run.stack == Below(old(run)) + [Polled(Top(old(run)), None)]
    {
      hide Run, Runs, Inv;
      RunsOne(run, Begin);
      Advance(Begin);
      PolledIsUnfinished(run);
      PollEnds(old(run), run, None);
      hide Next, Polled, Kept, NewPolls, Top, Below;
      RunsSnoc(old(run), [Begin], End(None));
      Advance(End(None));
      return [Begin] + [End(None)];
    }

    // Every future of the queue is polled once with the waker, in order.  Those still pending go back
    // to the front of the queue in their old order, ahead of everything registered meanwhile, and the
    // futures then queued that were last polled by this pass are exactly those registered before it.
    method PollAll(waker: Waker, polls: seq<Poll>) returns (ghost trace: seq<Action>)
      requires Valid() && Free(run)
      modifies this
      ensures Valid() && Later(old(run), run)
      ensures Runs(old(run), trace) && run == Run(old(run), trace)
      ensures trace != [] && trace[0] == Open(waker) && trace[|trace| - 1] == Close
      ensures var batch := old(entries);
              var survivors := Survivors(batch, polls, |batch|);
              && |survivors| <= |entries| && entries[..|survivors|] == survivors
              && (forall f :: f in entries[|survivors|..] ==> f >= old(run).next)
              && (forall i :: 0 <= i < |batch| && OutcomeOf(polls, i).Some? ==>
                   batch[i] in run.outcome && run.outcome[batch[i]] == OutcomeOf(polls, i).value)
      ensures EndsWith(ready, Results(old(entries), polls, |old(entries)|))
      ensures forall f :: f in entries ==>
                (PolledBy(run, f, Mark(waker, old(run).passes)) <==> f < old(run).next)
      decreases polls, 2
    {
      hide Run, Runs, Inv, Kept, NewPolls, Next, Marked, PolledBy;
      RunsOne(run, Open(waker));
      BatchOpens(run, waker);
      ghost var mark := Mark(waker, run.passes);
      var batch := TakeEntries(waker);
      ghost var taken := run;
      assert batch[0..] == batch;
      trace := [Open(waker)];
      var pending: seq<Fut>, done: seq<Completed> := [], [];
      for i := 0 to |batch|
        invariant Valid() && Runs(old(run), trace) && run == Run(old(run), trace)
        invariant trace != [] && trace[0] == Open(waker)
        invariant run.stack == old(run).stack + [Polling(mark, None, batch[i..], pending, done)]
        invariant pending == Survivors(batch, polls, i) && done == Results(batch, polls, i)
        invariant Kept(taken, run) && NewPolls(taken, run, batch)
        invariant forall j :: 0 <= j < i && OutcomeOf(polls, j).Some? ==>
                    batch[j] in run.outcome && run.outcome[batch[j]] == OutcomeOf(polls, j).value
      {
        ghost var turn;
        ghost var before := run;
        BatchTop(run, old(run).stack, mark, batch, i, pending, done);
        if i < |polls| {
          turn := PollNext(polls[i]);
        } else {
          turn := PollIdle();
        }
        KeptTrans(taken, before, run);
        NewPollsTrans(taken, before, run, batch, [batch[i]]);
        RunsAppend(old(run), trace, turn);
        trace := trace + turn;
        KeptOutcomes(before, run);
        match OutcomeOf(polls, i) {
          case None => pending := pending + [batch[i]];
          case Some(outcome) => done := done + [Completed(batch[i], outcome)];
        }
      }
      assert batch[|batch|..] == [];
      ghost var polled := run;
      SettlePass(old(run), waker, polls, pending, done);
      RunsSnoc(old(run), trace, Close);
      trace := trace + [Close];
    }

    // The end of a pass that began in state `s`: what came of its futures goes back into the queue.
    method SettlePass(
      ghost s: State, ghost waker: Waker, ghost polls: seq<Poll>, pending: seq<Fut>, done: seq<Completed>)
      requires Valid() && Inv(s) && Enabled(s, Open(waker))
      requires Kept(Next(s, Open(waker)), run) && NewPolls(Next(s, Open(waker)), run, s.entries)
      requires run.stack == s.stack + [Polling(Mark(waker, s.passes), None, [], pending, done)]
      requires pending == Survivors(s.entries, polls, |s.entries|)
      requires forall j :: 0 <= j < |s.entries| && OutcomeOf(polls, j).Some? ==> s.entries[j] in run.outcome
      modifies this
      ensures Valid() && Enabled(old(run), Close) && run == Next(old(run), Close) && Later(s, run)
      ensures EndsWith(ready, done)
      ensures run.outcome == old(run).outcome
      ensures |pending| <= |entries| && entries[..|pending|] == pending
      ensures forall f :: f in entries[|pending|..] ==> f >= s.next
      ensures forall f :: f in entries ==> (PolledBy(run, f, Mark(waker, s.passes)) <==> f < s.next)
    {
      SurvivorsWait(s.entries, polls, |s.entries|);
      InvMarked(run);
      hide Run, Runs, Inv, Kept, NewPolls, Next, Marked, PolledBy, Survivors;
      ghost var polled := run;
      BatchSettles(s, run, waker, pending, done);
      SettleBatch(pending, done);
      assert entries == pending + polled.entries;
      assert entries[|pending|..] == polled.entries;
      assert ready == polled.ready + done && ready[|polled.ready|..] == done;
      SettledCovers(s, polled, run, waker, pending);
    }

    // Ready results are taken out together and delivered one by one; a failing delivery returns at
    // once and leaves the rest of the batch undelivered.
    method Publish(deliveries: seq<Delivery>) returns (ok: bool, ghost trace: seq<Action>)
      requires Valid() && Free(run)
      modifies this
      ensures Valid() && Later(old(run), run)
      ensures Runs(old(run), trace) && run == Run(old(run), trace)
      ensures var n := |old(ready)|;
              && (ok <==> forall i :: 0 <= i < n && i < |deliveries| ==> !deliveries[i].Fails?)
              && (ok ==> Settled(run, old(ready), deliveries, n))
      decreases deliveries, 1
    {
      hide Run, Runs, Inv, Kept, NewPolls, Next, Settled;
      RunsOne(run, Drain);
      PublishOpens(run);
      var drained := DrainReady();
      assert drained[0..] == drained;
      NoneSettled(run, drained, deliveries);
      trace := [Drain];
      for i := 0 to |drained|
        invariant Valid() && Runs(old(run), trace) && run == Run(old(run), trace)
        invariant run.stack == old(run).stack + [Publishing(drained[i..])]
        invariant Kept(old(run), run) && NewPolls(old(run), run, [])
        invariant forall j :: 0 <= j < i && j < |deliveries| ==> !deliveries[j].Fails?
        invariant Settled(run, drained, deliveries, i)
      {
        ghost var before := run;
        var delivered, turn := DeliverAt(old(run).stack, drained, deliveries, i);
        KeptTrans(old(run), before, run);
        NewPollsTrans(old(run), before, run, [], []);
        RunsAppend(old(run), trace, turn);
        trace := trace + turn;
        if !delivered {
          return false, trace;
        }
      }
      assert drained[|drained|..] == [];
      PublishEnds(old(run), run);
      RunsSnoc(old(run), trace, EndPublish);
      StillSettled(run, Next(run, EndPublish), drained, deliveries, |drained|);
      Advance(EndPublish);
      return true, trace + [EndPublish];
    }

    // One turn of the loop of `publish`.
    method DeliverAt(
      ghost below: seq<Frame>, ghost drained: seq<Completed>, deliveries: seq<Delivery>, i: nat)
      returns (ok: bool, ghost trace: seq<Action>)
      requires Valid() && i < |drained| && run.stack == below + [Publishing(drained[i..])]
      modifies this
      ensures Valid() && Runs(old(run), trace) && run == Run(old(run), trace)
      ensures Kept(old(run), run) && NewPolls(old(run), run, [])
      ensures ok <==> i >= |deliveries| || !deliveries[i].Fails?
      ensures run.stack == below + (if ok then [Publishing(drained[i + 1..])] else [])
      ensures ok && Settled(old(run), drained, deliveries, i) ==> Settled(run, drained, deliveries, i + 1)
      decreases deliveries, 0
    {
      hide Inv, NewPolls, Runs, Run;
      assert Top(run) == Publishing(drained[i..]) && Below(run) == below;
      assert drained[i..][0] == drained[i] && drained[i..][1..] == drained[i + 1..];
      if i < |deliveries| {
        ok, trace := DeliverNext(deliveries[i]);
      } else {
        ok := true;
        trace := DeliverQuietly();
      }
      hide Next;
      if Settled(old(run), drained, deliveries, i) {
        StillSettled(old(run), run, drained, deliveries, i);
      }
    }

    method DeliverQuietly() returns (ghost trace: seq<Action>)
      requires Valid() && Enabled(run, Deliver(false))
      modifies this
      ensures Valid() && Runs(old(run), trace) && run == Run(old(run), trace)
      ensures Kept(old(run), run) && NewPolls(old(run), run, [])
      ensures run.stack == Below(old(run)) + [Publishing(Top(old(run)).left[1..])]
      ensures Top(old(run)).left[0] in run.resolved
    {
      RunsOne(run, Deliver(false));
      Advance(Deliver(false));
      return [Deliver(false)];
    }

    method DeliverNext(delivery: Delivery) returns (ok: bool, ghost trace: seq<Action>)
      requires Valid() && Enabled(run, Deliver(false))
      modifies this
      ensures Valid() && Runs(old(run), trace) && run == Run(old(run), trace)
      ensures Kept(old(run), run) && NewPolls(old(run), run, []) && (ok <==> !delivery.Fails?)
      ensures ok ==> run.stack == Below(old(run)) + [Publishing(Top(old(run)).left[1..])]
      ensures ok ==> Top(old(run)).left[0] in (if delivery.IsCancelled? then run.cancelled else run.resolved)
      ensures !ok ==> run.stack == Below(old(run))
      decreases delivery
    {
      if delivery.IsCancelled? {
        RunsOne(run, Deliver(true));
        Advance(Deliver(true));
        return true, [Deliver(true)];
      }
      ghost var inner := Perform(delivery.acts);
      var last := if delivery.Fails? then FailDelivery else Deliver(false);
      RunsSnoc(old(run), inner, last);
      Advance(last);
      return !delivery.Fails?, inner + [last];
    }
  }
}
