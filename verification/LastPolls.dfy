/**
 Which pass polled a queued future last, over runs in which passes with different wakers follow each
 other and nest.
 */
module LastPolls {
  import opened Wrappers
  import opened FutureRuns

  function LastPollOf(s: State, f: Fut): Option<Mark> {
    if f in s.lastPoll then Some(s.lastPoll[f]) else None
  }

  // The last pass of a run that takes the future out of the queue.
  function LastTaker(s: State, actions: seq<Action>, f: Fut): Option<Mark>
    requires Runs(s, actions)
    decreases |actions|
  {
    if actions == [] then None
    else
      var later := LastTaker(Next(s, actions[0]), actions[1..], f);
      if later.Some? then later
      else if actions[0].Open? && f in s.entries then Some(Mark(actions[0].waker, s.passes))
      else None
  }

  // ----- the batch a future stands in --------------------------------------------------------------

  // The pass whose open batch holds the future.
  function HolderIn(stack: seq<Frame>, f: Fut): Option<Mark> {
    if stack == [] then None
    else
      var top := stack[|stack| - 1];
      if top.Polling? && f in FrameLine(top) then Some(top.mark) else HolderIn(stack[..|stack| - 1], f)
  }

  // The pass that will have polled an unfinished future last when the future is next in the queue.
  function Due(s: State, f: Fut): Option<Mark> {
    var holder := HolderIn(s.stack, f);
    if holder.Some? then holder else LastPollOf(s, f)
  }

  lemma {:induction false} HolderIffInLine(stack: seq<Frame>, f: Fut)
    ensures HolderIn(stack, f).Some? <==> f in StackLine(stack)
  {
    if stack != [] {
      HolderIffInLine(stack[..|stack| - 1], f);
    }
  }

  lemma {:induction false} HolderPush(stack: seq<Frame>, top: Frame, f: Fut)
    ensures HolderIn(stack + [top], f) ==
              if top.Polling? && f in FrameLine(top) then Some(top.mark) else HolderIn(stack, f)
  {
    assert (stack + [top])[..|stack|] == stack;
  }

  lemma {:induction false} HolderTop(s: State, f: Fut)
    requires s.stack != []
    ensures HolderIn(s.stack, f) ==
              if Top(s).Polling? && f in FrameLine(Top(s)) then Some(Top(s).mark) else HolderIn(Below(s), f)
  {
  }

  lemma {:induction false} Apart(a: seq<Fut>, b: seq<Fut>, f: Fut)
    requires Increasing(a + b) && f in a
    ensures f !in b
  {
    var i :| 0 <= i < |a| && a[i] == f;
    assert (a + b)[i] == f;
    assert forall j :: 0 <= j < |b| ==> (a + b)[|a| + j] == b[j];
  }

  // What stands in the queue stands in no batch.
  lemma {:induction false} QueuedIsFree(s: State, f: Fut)
    requires Ordered(s) && f in s.entries
    ensures HolderIn(s.stack, f) == None && Due(s, f) == LastPollOf(s, f)
  {
    HolderIffInLine(s.stack, f);
    hide StackLine, Conserved;
    if f in StackLine(s.stack) {
      Apart(StackLine(s.stack), s.entries, f);
    }
  }

  // ----- one action ------------------------------------------------------------------------------------

  // Replacing the innermost frame by one with the same mark and the same future in it or not.
  lemma {:induction false} SameHolder(s: State, t: State, top: Frame, f: Fut)
    requires s.stack != [] && t.stack == Below(s) + [top]
    requires top.Polling? == Top(s).Polling? && (top.Polling? ==> top.mark == Top(s).mark)
    requires f in FrameLine(top) <==> f in FrameLine(Top(s))
    ensures HolderIn(t.stack, f) == HolderIn(s.stack, f)
  {
    HolderTop(s, f);
    HolderPush(Below(s), top, f);
    hide HolderIn, FrameLine;
  }

  lemma {:induction false} OpenDue(s: State, waker: Waker, f: Fut)
    requires Ordered(s) && Enabled(s, Open(waker))
    ensures Due(Next(s, Open(waker)), f) == if f in s.entries then Some(Mark(waker, s.passes)) else Due(s, f)
  {
    var top := Polling(Mark(waker, s.passes), None, s.entries, [], []);
    HolderPush(s.stack, top, f);
    hide HolderIn, Ordered;
    assert FrameLine(top) == s.entries;
  }

  lemma {:induction false} BeginDue(s: State, f: Fut)
    requires Enabled(s, Begin)
    ensures Due(Next(s, Begin), f) == Due(s, f)
  {
    var top := Top(s);
    var begun := top.(current := Some(top.rest[0]), rest := top.rest[1..]);
    assert top.rest == [top.rest[0]] + top.rest[1..];
    SameHolder(s, Next(s, Begin), begun, f);
    if f == top.rest[0] {
      HolderTop(s, f);
    }
    hide HolderIn;
  }

  lemma {:induction false} EndDue(s: State, result: Option<nat>, f: Fut)
    requires Ordered(s) && Enabled(s, End(result)) && f in Line(Next(s, End(result)))
    requires Ordered(Next(s, End(result)))
    ensures Due(Next(s, End(result)), f) == Due(s, f)
  {
    var top := Top(s);
    var g := top.current.value;
    var t := Next(s, End(result));
    var ended :=
      if result.None? then top.(current := None, pending := top.pending + [g])
      else top.(current := None, done := top.done + [Completed(g, result.value)]);
    assert result.Some? ==> g in t.outcome;
    assert f in t.outcome ==> f !in Line(t);
    hide Ordered, Line;
    SameHolder(s, t, ended, f);
    hide HolderIn, FrameLine;
  }

  // What waits in a batch about to be closed was polled by its pass.
  lemma {:induction false} PendingIsMarked(s: State, f: Fut)
    requires Marked(s) && PollsAt(s) && f in Top(s).pending
    ensures LastPollOf(s, f) == Some(Top(s).mark)
  {
    assert Waits(s.stack[|s.stack| - 1], f);
  }

  lemma {:induction false} CloseDue(s: State, f: Fut)
    requires Inv(s) && Enabled(s, Close) && Ordered(Next(s, Close))
    ensures Due(Next(s, Close), f) == Due(s, f)
  {
    var top, t := Top(s), Next(s, Close);
    assert FrameLine(top) == top.pending by { assert top.pending + [] == top.pending; }
    assert t.stack == Below(s) && t.lastPoll == s.lastPoll && t.entries == top.pending + s.entries;
    HolderTop(s, f);
    hide Next, Ordered, HolderIn, FrameLine;
    if f in top.pending {
      PendingIsMarked(s, f);
      hide Marked;
      QueuedIsFree(t, f);
    }
  }

  lemma {:induction false} OtherDue(s: State, a: Action, f: Fut)
    requires Enabled(s, a) && (a.Register? || a.Drain? || a.Deliver? || a.FailDelivery? || a.EndPublish?)
    ensures Due(Next(s, a), f) == Due(s, f)
  {
    match a {
      case Register =>
      case Drain => HolderPush(s.stack, Publishing(s.ready), f);
      case Deliver(_) => SameHolder(s, Next(s, a), Publishing(Top(s).left[1..]), f);
      case _ => HolderTop(s, f);
    }
    hide HolderIn;
  }

  // Only a pass that takes an unfinished future from the queue changes who polls it last.
  lemma {:induction false} StepDue(s: State, a: Action, f: Fut)
    requires Inv(s) && Enabled(s, a) && f in Line(Next(s, a))
    ensures Due(Next(s, a), f) ==
              if a.Open? && f in s.entries then Some(Mark(a.waker, s.passes)) else Due(s, f)
  {
    StepKeepsInv(s, a);
    hide Ordered, Marked, Line, Next, Enabled, Due;
    match a {
      case Open(waker) => OpenDue(s, waker, f);
      case Begin => BeginDue(s, f);
      case End(result) => EndDue(s, result, f);
      case Close => CloseDue(s, f);
      case _ => OtherDue(s, a, f);
    }
  }

  // ----- whole runs --------------------------------------------------------------------------------------

  lemma {:induction false} StepKeepsOutcomes(s: State, a: Action)
    requires Enabled(s, a)
    ensures s.next <= Next(s, a).next && forall f :: f in s.outcome ==> f in Next(s, a).outcome
  {
  }

  lemma {:induction false} RunKeepsOutcomes(s: State, actions: seq<Action>)
    requires Runs(s, actions)
    ensures s.next <= Run(s, actions).next && forall f :: f in s.outcome ==> f in Run(s, actions).outcome
    decreases |actions|
  {
    hide Next, Enabled;
    if actions != [] {
      StepKeepsOutcomes(s, actions[0]);
      RunKeepsOutcomes(Next(s, actions[0]), actions[1..]);
    }
  }

  // What is unfinished at the end of a run was unfinished all along.
  lemma {:induction false} Unfinished(s: State, actions: seq<Action>, f: Fut)
    requires Inv(s) && Runs(s, actions) && f < s.next && f in Line(Run(s, actions))
    ensures f in Line(s)
  {
    RunKeepsInv(s, actions);
    RunKeepsOutcomes(s, actions);
    hide Line, Runs, Run, Marked, Increasing;
  }

  lemma {:induction false} RunDue(s: State, actions: seq<Action>, f: Fut)
    requires Inv(s) && Runs(s, actions) && f < s.next && f in Line(Run(s, actions))
    ensures Due(Run(s, actions), f) ==
              if LastTaker(s, actions, f).Some? then LastTaker(s, actions, f) else Due(s, f)
    decreases |actions|
  {
    hide Inv, Line, Next, Enabled, Due;
    if actions != [] {
      var next := Next(s, actions[0]);
      StepKeepsInv(s, actions[0]);
      StepKeepsOutcomes(s, actions[0]);
      Unfinished(next, actions[1..], f);
      StepDue(s, actions[0], f);
      RunDue(next, actions[1..], f);
    }
  }

  lemma {:induction false} TakersAreNew(s: State, actions: seq<Action>, f: Fut)
    requires Runs(s, actions) && LastTaker(s, actions, f).Some?
    ensures LastTaker(s, actions, f).value.pass >= s.passes
    decreases |actions|
  {
    if LastTaker(Next(s, actions[0]), actions[1..], f).Some? {
      TakersAreNew(Next(s, actions[0]), actions[1..], f);
    }
  }

  // Over any run, with whatever wakers and nesting, a future queued before and after it was last polled
  // by the pass that last took it from the queue: it keeps the waker it had exactly if no pass took it.
  lemma {:induction false} QueuedKeepsItsWakerIff(s: State, actions: seq<Action>, f: Fut)
    requires Inv(s) && Runs(s, actions) && f in s.entries && f in Run(s, actions).entries
    ensures LastPollOf(Run(s, actions), f) ==
              if LastTaker(s, actions, f).Some? then LastTaker(s, actions, f) else LastPollOf(s, f)
    ensures LastPollOf(Run(s, actions), f) == LastPollOf(s, f) <==> LastTaker(s, actions, f).None?
  {
    RunKeepsInv(s, actions);
    QueuedIsFree(s, f);
    QueuedIsFree(Run(s, actions), f);
    assert f in Line(s) && f in Line(Run(s, actions)) by { hide StackLine; }
    assert f < s.next;
    hide Run, Runs, Line, Ordered, Due, LastTaker;
    RunDue(s, actions, f);
    if LastTaker(s, actions, f).Some? {
      TakersAreNew(s, actions, f);
    }
  }

  // A run that begins with a pass: of the futures queued before and after it, the pass was the last to
  // poll exactly those that no later pass took.
  lemma {:induction false} FirstPassHoldsIff(s: State, actions: seq<Action>, f: Fut)
    requires Inv(s) && Runs(s, actions) && actions != [] && actions[0].Open?
    requires f in s.entries && f in Run(s, actions).entries
    ensures LastPollOf(Run(s, actions), f) == Some(Mark(actions[0].waker, s.passes))
            <==> LastTaker(Next(s, actions[0]), actions[1..], f).None?
  {
    QueuedKeepsItsWakerIff(s, actions, f);
    hide Inv, Run;
    if LastTaker(Next(s, actions[0]), actions[1..], f).Some? {
      TakersAreNew(Next(s, actions[0]), actions[1..], f);
    }
  }

  // ----- two wakers ------------------------------------------------------------------------------------------

  function AfterPass(s: State, waker: Waker, f: Fut): State {
    s.(passes := s.passes + 1, lastPoll := s.lastPoll[f := Mark(waker, s.passes)])
  }

  // A pass over one future, at one point of it.
  function InPass(s: State, waker: Waker, f: Fut, frame: Frame): State {
    AfterPass(s, waker, f).(stack := [frame], polling := s.polling + 1, entries := [])
  }

  function Taken(s: State, waker: Waker, f: Fut): State {
    s.(stack := [Polling(Mark(waker, s.passes), None, [f], [], [])], polling := s.polling + 1, entries := [],
       passes := s.passes + 1)
  }

  lemma {:induction false} PassTakes(s: State, waker: Waker, f: Fut)
    requires s.entries == [f] && s.stack == []
    ensures Next(s, Open(waker)) == Taken(s, waker, f)
  {
    var frame := Polling(Mark(waker, s.passes), None, s.entries, [], []);
    assert s.stack + [frame] == [frame];
  }

  lemma {:induction false} PassBegins(s: State, waker: Waker, f: Fut)
    ensures var taken := Taken(s, waker, f);
            && Enabled(taken, Begin)
            && Next(taken, Begin) == InPass(s, waker, f, Polling(Mark(waker, s.passes), Some(f), [], [], []))
  {
    assert Taken(s, waker, f).stack[..0] == [] && [f][1..] == [];
  }

  lemma {:induction false} PassCloses(s: State, waker: Waker, f: Fut)
    requires s.entries == [f] && s.stack == []
    ensures var mark := Mark(waker, s.passes);
            var polled := InPass(s, waker, f, Polling(mark, Some(f), [], [], []));
            var ended := InPass(s, waker, f, Polling(mark, None, [], [f], []));
            && Next(polled, End(None)) == ended && Enabled(ended, Close)
            && Next(ended, Close) == AfterPass(s, waker, f)
  {
    var mark := Mark(waker, s.passes);
    var polled := InPass(s, waker, f, Polling(mark, Some(f), [], [], []));
    var ended := InPass(s, waker, f, Polling(mark, None, [], [f], []));
    assert polled.stack[..0] == [] && ended.stack[..0] == [];
    assert [] + [f] == [f] && [f] + [] == [f];
  }

  lemma {:induction false} PassThen(s: State, waker: Waker, f: Fut, rest: seq<Action>)
    requires s.entries == [f] && s.stack == [] && Runs(AfterPass(s, waker, f), rest)
    ensures Runs(s, [Open(waker)] + ([Begin] + ([End(None)] + ([Close] + rest))))
    ensures Run(s, [Open(waker)] + ([Begin] + ([End(None)] + ([Close] + rest)))) == Run(AfterPass(s, waker, f), rest)
  {
    var mark := Mark(waker, s.passes);
    var polled := InPass(s, waker, f, Polling(mark, Some(f), [], [], []));
    var ended := InPass(s, waker, f, Polling(mark, None, [], [f], []));
    assert Enabled(s, Open(waker)) && Enabled(polled, End(None));
    hide Runs, Run, Next, Enabled, InPass, AfterPass, Taken;
    PassTakes(s, waker, f);
    PassBegins(s, waker, f);
    PassCloses(s, waker, f);
    RunCons(ended, Close, rest);
    RunCons(polled, End(None), [Close] + rest);
    RunCons(Next(s, Open(waker)), Begin, [End(None)] + ([Close] + rest));
    RunCons(s, Open(waker), [Begin] + ([End(None)] + ([Close] + rest)));
  }

  const TWO_WAKERS_RUN: seq<Action> :=
    [Register, Open(0), Begin, End(None), Close, Open(1), Begin, End(None), Close]

  // A future polled with one waker and then, still pending, with another is left to the second.
  lemma {:induction false} SecondWakerTakesOver()
    ensures Runs(Init(), TWO_WAKERS_RUN)
    ensures var s := Run(Init(), TWO_WAKERS_RUN);
            s.entries == [0] && s.stack == [] && LastPollOf(s, 0) == Some(Mark(1, 1))
  {
    hide Runs, Run;
    var s1 := Next(Init(), Register);
    var s2 := AfterPass(s1, 0, 0);
    var s3 := AfterPass(s2, 1, 0);
    assert s1.entries == [0] && s1.stack == [] && s1.passes == 0;
    assert s3.entries == [0] && s3.stack == [] && LastPollOf(s3, 0) == Some(Mark(1, 1));
    hide Next, AfterPass, Init, LastPollOf;
    NoSteps(s3);
    var second := [Open(1)] + ([Begin] + ([End(None)] + ([Close] + [])));
    PassThen(s2, 1, 0, []);
    var first := [Open(0)] + ([Begin] + ([End(None)] + ([Close] + second)));
    PassThen(s1, 0, 0, second);
    RunCons(Init(), Register, first);
    assert TWO_WAKERS_RUN == [Register] + first;
  }
}
