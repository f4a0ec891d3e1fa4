/**
 The queue of host futures as a state machine.  Polling a future or delivering a result can
 re-enter the queue, so the state carries a stack of open calls: `poll_all` batches and `publish`
 batches, innermost last.  Futures are numbered in registration order.
 */
module FutureRuns {
  import opened Wrappers

  type Fut = nat

  datatype Completed = Completed(fut: Fut, outcome: nat)

  // The waker a future was polled with, and the pass over the queue that polled it.
  datatype Mark = Mark(waker: Waker, pass: nat)

  datatype Frame =
    | Polling(mark: Mark, current: Option<Fut>, rest: seq<Fut>, pending: seq<Fut>, done: seq<Completed>)
    | Publishing(left: seq<Completed>)

  // `resolved`, `cancelled` and `dropped` are what became of drained futures, and `outcome` is the
  // history of what each completed future returned.  `passes` counts the passes opened so far, and
  // `lastPoll` is the history of the last poll of each future.
  datatype State = State(
    entries: seq<Fut>, polling: int, ready: seq<Completed>, stack: seq<Frame>, next: Fut,
    resolved: multiset<Completed>, cancelled: multiset<Completed>, dropped: multiset<Completed>,
    outcome: map<Fut, nat>, passes: nat, lastPoll: map<Fut, Mark>)

  datatype Action =
    | Register
    | Open(waker: Waker)
    | Begin
    | End(result: Option<nat>)
    | Close
    | Drain
    | Deliver(isCancelled: bool)
    | FailDelivery
    | EndPublish

  function Init(): State {
    State([], 0, [], [], 0, multiset{}, multiset{}, multiset{}, map[], 0, map[])
  }

  function Top(s: State): Frame
    requires s.stack != []
  {
    s.stack[|s.stack| - 1]
  }

  function Below(s: State): seq<Frame>
    requires s.stack != []
  {
    s.stack[..|s.stack| - 1]
  }

  function SetTop(s: State, top: Frame): State
    requires s.stack != []
  {
    s.(stack := Below(s) + [top])
  }

  function Pop(s: State): State
    requires s.stack != []
  {
    s.(stack := Below(s))
  }

  // The queue is only entered from outside, or from inside the poll or delivery in progress.
  predicate Free(s: State) {
    s.stack == [] || Top(s).Publishing? || Top(s).current.Some?
  }

  predicate PollsAt(s: State) {
    s.stack != [] && Top(s).Polling?
  }

  predicate PublishesAt(s: State) {
    s.stack != [] && Top(s).Publishing?
  }

  predicate Enabled(s: State, a: Action) {
    match a
    case Register => Free(s)
    case Open(_) => Free(s)
    case Drain => Free(s)
    case Begin => PollsAt(s) && Top(s).current.None? && Top(s).rest != []
    case End(_) => PollsAt(s) && Top(s).current.Some?
    case Close => PollsAt(s) && Top(s).current.None? && Top(s).rest == []
    case Deliver(_) => PublishesAt(s) && Top(s).left != []
    case FailDelivery => PublishesAt(s) && Top(s).left != []
    case EndPublish => PublishesAt(s) && Top(s).left == []
  }

  function Next(s: State, a: Action): State
    requires Enabled(s, a)
  {
    match a
    case Register => s.(entries := s.entries + [s.next], next := s.next + 1)
    case Open(waker) =>
      s.(stack := s.stack + [Polling(Mark(waker, s.passes), None, s.entries, [], [])],
         polling := s.polling + |s.entries|, entries := [], passes := s.passes + 1)
    case Begin =>
      var top := Top(s);
      SetTop(s, top.(current := Some(top.rest[0]), rest := top.rest[1..]))
        .(lastPoll := s.lastPoll[top.rest[0] := top.mark])
    case End(None) =>
      var top := Top(s);
      SetTop(s, top.(current := None, pending := top.pending + [top.current.value]))
    case End(Some(outcome)) =>
      var top := Top(s);
      var f := top.current.value;
      SetTop(s, top.(current := None, done := top.done + [Completed(f, outcome)]))
        .(outcome := s.outcome[f := outcome])
    case Close =>
      var top := Top(s);
      Pop(s).(polling := s.polling - (|top.pending| + |top.done|),
              entries := top.pending + s.entries, ready := s.ready + top.done)
    case Drain => s.(stack := s.stack + [Publishing(s.ready)], ready := [])
    case Deliver(isCancelled) =>
      var c, s1 := Top(s).left[0], SetTop(s, Publishing(Top(s).left[1..]));
      if isCancelled then s1.(cancelled := s.cancelled + multiset{c})
      else s1.(resolved := s.resolved + multiset{c})
    case FailDelivery => Pop(s).(dropped := s.dropped + multiset(Top(s).left))
    case EndPublish => Pop(s)
  }

  // ----- the invariant -----------------------------------------------------------------------

  function FrameLine(f: Frame): seq<Fut> {
    match f
    case Polling(_, current, rest, pending, _) =>
      pending + (if current.Some? then [current.value] else []) + rest
    case Publishing(_) => []
  }

  function FrameCount(f: Frame, c: Completed): nat {
    multiset(if f.Polling? then f.done else f.left)[c]
  }

  function FrameSize(f: Frame): nat {
    if f.Polling? then |FrameLine(f)| + |f.done| else 0
  }

  function StackLine(stack: seq<Frame>): seq<Fut> {
    if stack == [] then []
    else StackLine(stack[..|stack| - 1]) + FrameLine(stack[|stack| - 1])
  }

  function StackCount(stack: seq<Frame>, c: Completed): nat {
    if stack == [] then 0
    else StackCount(stack[..|stack| - 1], c) + FrameCount(stack[|stack| - 1], c)
  }

  function StackSize(stack: seq<Frame>): nat {
    if stack == [] then 0
    else StackSize(stack[..|stack| - 1]) + FrameSize(stack[|stack| - 1])
  }

  // Every unfinished future: outermost batch first, then each inner batch, then the queue.
  function Line(s: State): seq<Fut> {
    StackLine(s.stack) + s.entries
  }

  // In how many places a finished future is on its way to its waiter, or has been accounted for.
  function Places(s: State, c: Completed): nat {
    StackCount(s.stack, c) + multiset(s.ready)[c] + s.resolved[c] + s.cancelled[c] + s.dropped[c]
  }

  ghost predicate Increasing(line: seq<Fut>) {
    forall i, j :: 0 <= i < j < |line| ==> line[i] < line[j]
  }

  ghost predicate Conserved(s: State) {
    && (forall f :: f in Line(s) ==> f < s.next && f !in s.outcome)
    && (forall f :: 0 <= f < s.next ==> f in Line(s) || f in s.outcome)
    && (forall f :: f in s.outcome ==> f < s.next && Places(s, Completed(f, s.outcome[f])) == 1)
    && (forall c :: Places(s, c) > 0 ==> c.fut in s.outcome && s.outcome[c.fut] == c.outcome)
  }

  ghost predicate Ordered(s: State) {
    s.polling == StackSize(s.stack) && Increasing(Line(s)) && Conserved(s)
  }

  // The futures of a batch that were polled by its pass and are not finished.
  predicate Waits(f: Frame, fut: Fut) {
    f.Polling? && (f.current == Some(fut) || fut in f.pending)
  }

  // What the passes polled: a waiting future of an open batch was last polled by that batch's own pass.
  ghost predicate Marked(s: State) {
    && (forall f :: f in s.lastPoll ==> f < s.next && s.lastPoll[f].pass < s.passes)
    && (forall i :: 0 <= i < |s.stack| && s.stack[i].Polling? ==> s.stack[i].mark.pass < s.passes)
    && (forall i, f :: 0 <= i < |s.stack| && Waits(s.stack[i], f) ==>
         f in s.lastPoll && s.lastPoll[f] == s.stack[i].mark)
  }

  ghost predicate Inv(s: State) {
    Ordered(s) && Marked(s)
  }

  lemma {:induction false} PushFrame(stack: seq<Frame>, f: Frame)
    ensures StackLine(stack + [f]) == StackLine(stack) + FrameLine(f)
    ensures forall c :: StackCount(stack + [f], c) == StackCount(stack, c) + FrameCount(f, c)
    ensures StackSize(stack + [f]) == StackSize(stack) + FrameSize(f)
  {
    assert (stack + [f])[..|stack|] == stack;
  }

  // How an action moves the line and the finished futures.
  ghost predicate Moves(s: State, t: State, line: seq<Fut>, added: Option<Completed>) {
    && Line(t) == line
    && (forall c :: Places(t, c) == Places(s, c) + (if added == Some(c) then 1 else 0))
    && t.polling - StackSize(t.stack) == s.polling - StackSize(s.stack)
  }

  lemma {:induction false} TopParts(s: State)
    requires s.stack != []
    ensures StackLine(s.stack) == StackLine(Below(s)) + FrameLine(Top(s))
    ensures forall c :: StackCount(s.stack, c) == StackCount(Below(s), c) + FrameCount(Top(s), c)
    ensures StackSize(s.stack) == StackSize(Below(s)) + FrameSize(Top(s))
  {
  }

  lemma {:induction false} HeadCount(left: seq<Completed>)
    requires left != []
    ensures forall c :: FrameCount(Publishing(left), c) ==
              FrameCount(Publishing(left[1..]), c) + (if c == left[0] then 1 else 0)
  {
    assert left == [left[0]] + left[1..];
    assert multiset(left) == multiset{left[0]} + multiset(left[1..]);
  }

  lemma {:induction false} SnocCount(f: Frame, d: Completed)
    requires f.Polling?
    ensures forall c :: FrameCount(f.(current := None, done := f.done + [d]), c) ==
              FrameCount(f, c) + (if c == d then 1 else 0)
  {
    assert multiset(f.done + [d]) == multiset(f.done) + multiset{d};
  }

  lemma {:induction false} Assoc<T>(a: seq<T>, b: seq<T>, c: seq<T>)
    ensures (a + b) + c == a + (b + c)
  {
  }

  lemma {:induction false} Around<T>(a: seq<T>, b: seq<T>, x: T, c: seq<T>, d: seq<T>)
    ensures (a + (b + [x] + c)) + d == (a + b) + [x] + (c + d)
    ensures (a + (b + c)) + d == (a + b) + (c + d)
  {
  }

  // Replacing the top frame by one with the same unfinished and finished futures moves nothing.
  lemma {:induction false} SwapTopMoves(s: State, top: Frame)
    requires s.stack != []
    requires FrameLine(top) == FrameLine(Top(s)) && (forall c :: FrameCount(top, c) == FrameCount(Top(s), c))
    requires FrameSize(top) == FrameSize(Top(s))
    ensures Moves(s, SetTop(s, top), Line(s), None)
  {
    TopParts(s);
    PushFrame(Below(s), top);
    hide StackLine, StackCount, StackSize;
  }

  lemma {:induction false} OpenMoves(s: State, waker: Waker)
    requires Enabled(s, Open(waker))
    ensures Moves(s, Next(s, Open(waker)), Line(s), None)
  {
    var batch := Polling(Mark(waker, s.passes), None, s.entries, [], []);
    PushFrame(s.stack, batch);
    hide StackLine, StackCount, StackSize;
    assert FrameLine(batch) == s.entries;
    assert Line(Next(s, Open(waker))) == Line(s);
  }

  lemma {:induction false} BeginMoves(s: State)
    requires Enabled(s, Begin)
    ensures Moves(s, Next(s, Begin), Line(s), None)
  {
    var top := Top(s);
    var began := top.(current := Some(top.rest[0]), rest := top.rest[1..]);
    assert FrameLine(began) == FrameLine(top);
    SwapTopMoves(s, began);
  }

  lemma {:induction false} PendingMoves(s: State)
    requires Enabled(s, End(None))
    ensures Moves(s, Next(s, End(None)), Line(s), None)
  {
    var top := Top(s);
    var ended := top.(current := None, pending := top.pending + [top.current.value]);
    assert FrameLine(ended) == FrameLine(top);
    SwapTopMoves(s, ended);
  }

  // The unfinished futures before and after the one being polled.
  function Before(s: State): seq<Fut>
    requires PollsAt(s)
  {
    StackLine(Below(s)) + Top(s).pending
  }

  function After(s: State): seq<Fut>
    requires PollsAt(s)
  {
    Top(s).rest + s.entries
  }

  lemma {:induction false} ReadyLine(s: State, outcome: nat)
    requires Enabled(s, End(Some(outcome)))
    ensures Line(s) == Before(s) + [Top(s).current.value] + After(s)
    ensures Line(Next(s, End(Some(outcome)))) == Before(s) + After(s)
  {
    var top, below := Top(s), StackLine(Below(s));
    var ended := top.(current := None, done := top.done + [Completed(top.current.value, outcome)]);
    TopParts(s);
    PushFrame(Below(s), ended);
    hide StackLine;
    Around(below, top.pending, top.current.value, top.rest, s.entries);
    assert FrameLine(top) == top.pending + [top.current.value] + top.rest;
    assert FrameLine(ended) == top.pending + top.rest by {
      assert top.pending + [] == top.pending;
    }
    var t := Next(s, End(Some(outcome)));
    assert t.stack == Below(s) + [ended] && t.entries == s.entries;
  }

  lemma {:induction false} ReadyMoves(s: State, outcome: nat)
    requires Enabled(s, End(Some(outcome)))
    ensures Moves(s, Next(s, End(Some(outcome))), Before(s) + After(s),
                  Some(Completed(Top(s).current.value, outcome)))
  {
    var top := Top(s);
    var c := Completed(top.current.value, outcome);
    var ended := top.(current := None, done := top.done + [c]);
    var t := Next(s, End(Some(outcome)));
    assert t == s.(stack := Below(s) + [ended], outcome := t.outcome);
    ReadyLine(s, outcome);
    hide Next, Enabled;
    EndedSize(top, c);
    TopParts(s);
    PushFrame(Below(s), ended);
    SnocCount(top, c);
    hide StackLine, StackCount, StackSize, FrameLine, FrameCount, FrameSize, Line, Before, After;
  }

  lemma {:induction false} EndedSize(top: Frame, c: Completed)
    requires top.Polling? && top.current.Some?
    ensures FrameSize(top.(current := None, done := top.done + [c])) == FrameSize(top)
  {
  }

  lemma {:induction false} CloseLine(s: State)
    requires Enabled(s, Close)
    ensures Line(Next(s, Close)) == Line(s)
  {
    var top := Top(s);
    TopParts(s);
    hide StackLine;
    assert FrameLine(top) == top.pending by {
      assert top.pending + [] + [] == top.pending;
    }
    Assoc(StackLine(Below(s)), top.pending, s.entries);
  }

  lemma {:induction false} CloseMoves(s: State)
    requires Enabled(s, Close)
    ensures Moves(s, Next(s, Close), Line(s), None)
  {
    var top := Top(s);
    CloseLine(s);
    TopParts(s);
    assert |FrameLine(top)| == |top.pending|;
    hide StackLine, StackCount, StackSize, FrameLine, Line;
    assert multiset(s.ready + top.done) == multiset(s.ready) + multiset(top.done);
  }

  lemma {:induction false} DrainMoves(s: State)
    requires Enabled(s, Drain)
    ensures Moves(s, Next(s, Drain), Line(s), None)
  {
    PushFrame(s.stack, Publishing(s.ready));
    hide StackLine, StackCount, StackSize;
    assert Line(Next(s, Drain)) == Line(s);
  }

  lemma {:induction false} PublishLine(s: State, a: Action)
    requires Enabled(s, a) && (a.Deliver? || a.FailDelivery? || a.EndPublish?)
    ensures Line(Next(s, a)) == Line(s)
  {
    TopParts(s);
    if a.Deliver? {
      PushFrame(Below(s), Publishing(Top(s).left[1..]));
    }
    NilRight(StackLine(Below(s)));
    hide StackLine;
  }

  lemma {:induction false} NilRight<T>(a: seq<T>)
    ensures a + [] == a
  {
  }

  lemma {:induction false} PublishSize(left: seq<Completed>)
    ensures FrameSize(Publishing(left)) == 0 && FrameLine(Publishing(left)) == []
  {
  }

  lemma {:induction false} DeliverPlaces(s: State, isCancelled: bool, c: Completed)
    requires Enabled(s, Deliver(isCancelled))
    ensures Places(Next(s, Deliver(isCancelled)), c) == Places(s, c)
  {
    var left := Top(s).left;
    HeadCount(left);
    TopParts(s);
    PushFrame(Below(s), Publishing(left[1..]));
    hide StackLine, StackCount, StackSize, FrameCount, FrameLine, FrameSize;
  }

  lemma {:induction false} DeliverSize(s: State, isCancelled: bool)
    requires Enabled(s, Deliver(isCancelled))
    ensures var t := Next(s, Deliver(isCancelled)); t.polling == s.polling && StackSize(t.stack) == StackSize(s.stack)
  {
    var left := Top(s).left;
    PublishSize(left);
    PublishSize(left[1..]);
    TopParts(s);
    PushFrame(Below(s), Publishing(left[1..]));
    hide StackLine, StackCount, StackSize, FrameCount, FrameLine, FrameSize;
  }

  lemma {:induction false} DeliverMoves(s: State, isCancelled: bool)
    requires Enabled(s, Deliver(isCancelled))
    ensures Moves(s, Next(s, Deliver(isCancelled)), Line(s), None)
  {
    hide Next, Enabled, Line, Places, StackSize;
    PublishLine(s, Deliver(isCancelled));
    DeliverSize(s, isCancelled);
    forall c
      ensures Places(Next(s, Deliver(isCancelled)), c) == Places(s, c)
    {
      DeliverPlaces(s, isCancelled, c);
    }
  }

  lemma {:induction false} FailMoves(s: State)
    requires Enabled(s, FailDelivery)
    ensures Moves(s, Next(s, FailDelivery), Line(s), None)
  {
    PublishLine(s, FailDelivery);
    TopParts(s);
    hide StackLine, StackCount, StackSize, Line;
  }

  lemma {:induction false} EndPublishMoves(s: State)
    requires Enabled(s, EndPublish)
    ensures Moves(s, Next(s, EndPublish), Line(s), None)
  {
    PublishLine(s, EndPublish);
    TopParts(s);
    hide StackLine, StackCount, StackSize, Line;
  }

  lemma {:induction false} MovesKeepOrder(s: State, t: State)
    requires Ordered(s) && Moves(s, t, Line(s), None)
    requires t.next == s.next && t.outcome == s.outcome
    ensures Ordered(t)
  {
  }

  lemma {:induction false} RegisterKeepsOrder(s: State)
    requires Ordered(s) && Enabled(s, Register)
    ensures Ordered(Next(s, Register))
    ensures Line(Next(s, Register)) == Line(s) + [s.next]
  {
    hide StackLine, StackCount, StackSize;
    var t := Next(s, Register);
    var before := Line(s);
    assert Line(t) == before + [s.next];
    assert forall c :: Places(t, c) == Places(s, c);
    assert forall i :: 0 <= i < |before| ==> before[i] in before;
  }

  lemma {:induction false} ReadyKeepsOrder(s: State, outcome: nat)
    requires Ordered(s) && Enabled(s, End(Some(outcome)))
    ensures Ordered(Next(s, End(Some(outcome))))
  {
    ReadyMoves(s, outcome);
    ReadyLine(s, outcome);
    SplitIncreasing(Before(s), Top(s).current.value, After(s));
    ReadyConserves(s, Next(s, End(Some(outcome))), Before(s), Top(s).current.value, After(s), outcome);
  }

  lemma {:induction false} ReadyConserves(s: State, t: State, before: seq<Fut>, f: Fut, after: seq<Fut>, outcome: nat)
    requires Conserved(s) && Line(s) == before + [f] + after && f !in before && f !in after
    requires Line(t) == before + after 
    requires forall c :: Places(t, c) == Places(s, c) + (if c == Completed(f, outcome) then 1 else 0)
    requires t.next == s.next && t.outcome == s.outcome[f := outcome]
    ensures Conserved(t)
  {
    hide Line, Places;
    var line := Line(s);
    assert line[|before|] == f;
    assert forall g :: g in line <==> g in before || g == f || g in after;
    assert forall c: Completed :: c.fut == f ==> Places(s, c) == 0;
  }

  // Taking one future out of an increasing line leaves it increasing and without that future.
  lemma {:induction false} SplitIncreasing(before: seq<Fut>, f: Fut, after: seq<Fut>)
    requires Increasing(before + [f] + after)
    ensures Increasing(before + after) && f !in before && f !in after
  {
    var line, rest := before + [f] + after, before + after;
    assert line[|before|] == f;
    assert forall i :: 0 <= i < |before| ==> before[i] == line[i];
    assert forall i :: 0 <= i < |after| ==> after[i] == line[|before| + 1 + i];
    forall i, j | 0 <= i < j < |rest|
      ensures rest[i] < rest[j]
    {
      var i', j' := if i < |before| then i else i + 1, if j < |before| then j else j + 1;
      assert rest[i] == line[i'] && rest[j] == line[j'];
    }
  }

  lemma {:induction false} StepKeepsOrder(s: State, a: Action)
    requires Ordered(s) && Enabled(s, a)
    ensures Ordered(Next(s, a))
  {
    match a
    case Register => RegisterKeepsOrder(s);
    case Open(waker) => OpenMoves(s, waker); MovesKeepOrder(s, Next(s, a));
    case Begin => BeginMoves(s); MovesKeepOrder(s, Next(s, a));
    case End(None) => PendingMoves(s); MovesKeepOrder(s, Next(s, a));
    case End(Some(outcome)) => ReadyKeepsOrder(s, outcome);
    case Close => CloseMoves(s); MovesKeepOrder(s, Next(s, a));
    case Drain => DrainMoves(s); MovesKeepOrder(s, Next(s, a));
    case Deliver(isCancelled) => DeliverMoves(s, isCancelled); MovesKeepOrder(s, Next(s, a));
    case FailDelivery => FailMoves(s); MovesKeepOrder(s, Next(s, a));
    case EndPublish => EndPublishMoves(s); MovesKeepOrder(s, Next(s, a));
  }

  lemma {:induction false} InStackLine(stack: seq<Frame>, i: nat, f: Fut)
    requires i < |stack| && f in FrameLine(stack[i])
    ensures f in StackLine(stack)
  {
    if i < |stack| - 1 {
      InStackLine(stack[..|stack| - 1], i, f);
    }
  }

  lemma {:induction false} NextInLine(s: State)
    requires Enabled(s, Begin)
    ensures Line(s) == Before(s) + [Top(s).rest[0]] + (Top(s).rest[1..] + s.entries)
  {
    var f, top := Top(s).rest[0], Top(s);
    TopParts(s);
    assert FrameLine(top) == top.pending + ([f] + top.rest[1..]) by {
      assert top.pending + [] == top.pending && top.rest == [f] + top.rest[1..];
    }
    hide StackLine, FrameLine;
    Regroup(StackLine(Below(s)), top.pending, f, top.rest[1..], s.entries);
  }

  lemma {:induction false} Regroup<T>(a: seq<T>, b: seq<T>, x: T, c: seq<T>, d: seq<T>)
    ensures (a + (b + ([x] + c))) + d == (a + b) + [x] + (c + d)
  {
  }

  // The next future of the innermost batch stands in no outer batch, and is not waiting in its own.
  lemma {:induction false} NextIsNowhereElse(s: State)
    requires Increasing(Line(s)) && Enabled(s, Begin)
    ensures forall i :: 0 <= i < |s.stack| ==> !Waits(s.stack[i], Top(s).rest[0])
  {
    var f := Top(s).rest[0];
    NextInLine(s);
    SplitIncreasing(Before(s), f, Top(s).rest[1..] + s.entries);
    hide Line, Increasing;
    forall i | 0 <= i < |s.stack|
      ensures !Waits(s.stack[i], f)
    {
      if i < |s.stack| - 1 && Waits(s.stack[i], f) {
        assert Below(s)[i] == s.stack[i];
        InStackLine(Below(s), i, f);
      }
    }
  }

  lemma {:induction false} BeginKeepsMarks(s: State)
    requires Inv(s) && Enabled(s, Begin)
    ensures Marked(Next(s, Begin))
  {
    var t, f := Next(s, Begin), Top(s).rest[0];
    NextIsNowhereElse(s);
    NextIsKnown(s);
    hide Ordered, Line;
    forall i, g | 0 <= i < |t.stack| && Waits(t.stack[i], g)
      ensures g in t.lastPoll && t.lastPoll[g] == t.stack[i].mark
    {
      if i < |s.stack| - 1 {
        assert t.stack[i] == s.stack[i];
      }
      assert g != f ==> Waits(s.stack[i], g);
    }
  }

  // A frame that waits for no more than before, with the same mark.
  lemma {:induction false} SetTopKeepsMarks(s: State, t: State, top: Frame)
    requires Marked(s) && s.stack != [] && t.stack == Below(s) + [top]
    requires t.next == s.next && t.passes == s.passes && t.lastPoll == s.lastPoll
    requires top.Polling? ==> Top(s).Polling? && top.mark == Top(s).mark
    requires forall f :: Waits(top, f) ==> Waits(Top(s), f)
    ensures Marked(t)
  {
    forall i | 0 <= i < |t.stack|
      ensures i < |s.stack| - 1 ==> t.stack[i] == s.stack[i]
      ensures t.stack[i].Polling? ==> t.stack[i].mark.pass < s.passes
    {
      if i < |s.stack| - 1 {
        assert t.stack[i] == s.stack[i];
      }
    }
    forall i, f | 0 <= i < |t.stack| && Waits(t.stack[i], f)
      ensures f in t.lastPoll && t.lastPoll[f] == t.stack[i].mark
    {
      assert Waits(s.stack[i], f);
    }
    hide Waits;
  }

  lemma {:induction false} PopKeepsMarks(s: State, t: State)
    requires Marked(s) && s.stack != [] && t.stack == Below(s)
    requires t.next == s.next && t.passes == s.passes && t.lastPoll == s.lastPoll
    ensures Marked(t)
  {
    hide Waits;
    assert forall i :: 0 <= i < |t.stack| ==> t.stack[i] == s.stack[i];
  }

  lemma {:induction false} PushKeepsMarks(s: State, t: State, top: Frame)
    requires Marked(s) && t.stack == s.stack + [top] && (forall f :: !Waits(top, f))
    requires t.next == s.next && t.passes >= s.passes && t.lastPoll == s.lastPoll
    requires top.Polling? ==> top.mark.pass < t.passes
    ensures Marked(t)
  {
    hide Waits;
    assert forall i :: 0 <= i < |s.stack| ==> t.stack[i] == s.stack[i];
  }

  lemma {:induction false} EndKeepsMarks(s: State, result: Option<nat>)
    requires Marked(s) && Enabled(s, End(result))
    ensures Marked(Next(s, End(result)))
  {
    hide Marked;
    var top, f := Top(s), Top(s).current.value;
    var ended :=
      if result.None? then top.(current := None, pending := top.pending + [f])
      else top.(current := None, done := top.done + [Completed(f, result.value)]);
    assert Next(s, End(result)).stack == Below(s) + [ended];
    SetTopKeepsMarks(s, Next(s, End(result)), ended);
  }

  lemma {:induction false} OtherKeepsMarks(s: State, a: Action)
    requires Marked(s) && Enabled(s, a) && (a.Register? || a.Deliver? || a.FailDelivery? || a.EndPublish? || a.Close?)
    ensures Marked(Next(s, a))
  {
    if a.Register? {
      hide Waits;
    } else if a.Deliver? {
      hide Marked;
      SetTopKeepsMarks(s, Next(s, a), Publishing(Top(s).left[1..]));
    } else {
      hide Marked;
      PopKeepsMarks(s, Next(s, a));
    }
  }

  lemma {:induction false} OpenKeepsMarks(s: State, a: Action)
    requires Marked(s) && Enabled(s, a) && (a.Open? || a.Drain?)
    ensures Marked(Next(s, a))
  {
    hide Marked;
    var top := if a.Open? then Polling(Mark(a.waker, s.passes), None, s.entries, [], []) else Publishing(s.ready);
    PushKeepsMarks(s, Next(s, a), top);
  }

  lemma {:induction false} StepKeepsMarks(s: State, a: Action)
    requires Inv(s) && Enabled(s, a)
    ensures Marked(Next(s, a))
  {
    hide Ordered, Marked, Next, Enabled;
    match a
    case Begin => BeginKeepsMarks(s);
    case End(result) => EndKeepsMarks(s, result);
    case Open(_) => OpenKeepsMarks(s, a);
    case Drain => OpenKeepsMarks(s, a);
    case _ => OtherKeepsMarks(s, a);
  }

  lemma {:induction false} NextIsKnown(s: State)
    requires Ordered(s) && Enabled(s, Begin)
    ensures Top(s).rest[0] < s.next
  {
    TopParts(s);
    hide StackLine, StackCount, StackSize, Places;
    assert Top(s).rest[0] in FrameLine(Top(s));
    assert Top(s).rest[0] in Line(s);
  }

  // Every step of the queue keeps conservation, the count of futures in open batches, the order, and
  // what is known of the last polls.
  lemma {:induction false} StepKeepsInv(s: State, a: Action)
    requires Inv(s) && Enabled(s, a)
    ensures Inv(Next(s, a))
  {
    StepKeepsOrder(s, a);
    StepKeepsMarks(s, a);
    hide Ordered, Marked, Next;
  }

  // ----- runs ----------------------------------------------------------------------------------

  predicate Runs(s: State, actions: seq<Action>)
    decreases |actions|
  {
    actions == [] || (Enabled(s, actions[0]) && Runs(Next(s, actions[0]), actions[1..]))
  }

  function Run(s: State, actions: seq<Action>): State
    requires Runs(s, actions)
    decreases |actions|
  {
    if actions == [] then s else Run(Next(s, actions[0]), actions[1..])
  }

  lemma {:induction false} RunKeepsInv(s: State, actions: seq<Action>)
    requires Inv(s) && Runs(s, actions)
    ensures Inv(Run(s, actions))
    decreases |actions|
  {
    if actions != [] {
      StepKeepsInv(s, actions[0]);
      RunKeepsInv(Next(s, actions[0]), actions[1..]);
    }
  }

  lemma {:induction false} InitIsInv()
    ensures Inv(Init())
  {
  }

  lemma {:induction false} ReachedInv(actions: seq<Action>)
    requires Runs(Init(), actions)
    ensures Inv(Run(Init(), actions))
  {
    InitIsInv();
    hide Inv;
    RunKeepsInv(Init(), actions);
  }

  // First in, first out across re-entrancy: whatever nests in whatever, the unfinished futures
  // stand in registration order, outermost batch first and the queue last.
  lemma {:induction false} FirstInFirstOut(actions: seq<Action>)
    requires Runs(Init(), actions)
    ensures Increasing(Line(Run(Init(), actions)))
  {
    ReachedInv(actions);
    hide Run, Runs, Marked, Line;
  }

  // Passes with other wakers cannot reach into an open batch: in every run, whatever was polled by
  // calls nested inside it, a waiting future of the batch was last polled by the batch's own pass.
  lemma {:induction false} BatchKeepsItsWaker(actions: seq<Action>, i: nat, f: Fut)
    requires Runs(Init(), actions)
    requires var s := Run(Init(), actions); i < |s.stack| && Waits(s.stack[i], f)
    ensures var s := Run(Init(), actions); f in s.lastPoll && s.lastPoll[f] == s.stack[i].mark
  {
    ReachedInv(actions);
    hide Run, Runs, Ordered;
  }

  // `polling` counts the futures in open batches, so settling a batch never underflows, and
  // `is_empty` answers whether any registered future is still to be delivered from the queue.
  predicate IsEmpty(s: State) {
    s.entries == [] && s.polling == 0 && s.ready == []
  }

  predicate OpenBatchesEmpty(stack: seq<Frame>) {
    forall i :: 0 <= i < |stack| && stack[i].Polling? ==> FrameLine(stack[i]) == [] && stack[i].done == []
  }

  lemma {:induction false} SizeZero(stack: seq<Frame>)
    ensures StackSize(stack) == 0 <==> OpenBatchesEmpty(stack)
  {
    if stack != [] {
      SizeZero(stack[..|stack| - 1]);
      assert stack == stack[..|stack| - 1] + [stack[|stack| - 1]];
    }
  }

  lemma {:induction false} EmptyMeans(s: State)
    requires s.polling == StackSize(s.stack)
    ensures IsEmpty(s) <==> s.entries == [] && OpenBatchesEmpty(s.stack) && s.ready == []
  {
    SizeZero(s.stack);
  }

  lemma {:induction false} CloseNeverUnderflows(s: State)
    requires s.polling == StackSize(s.stack) && Enabled(s, Close)
    ensures s.polling >= |Top(s).pending| + |Top(s).done|
  {
    TopParts(s);
  }

  lemma {:induction false} PollingCounts(actions: seq<Action>)
    requires Runs(Init(), actions)
    ensures var s := Run(Init(), actions);
            && s.polling == StackSize(s.stack)
            && (IsEmpty(s) <==> s.entries == [] && OpenBatchesEmpty(s.stack) && s.ready == [])
            && (Enabled(s, Close) ==> s.polling >= |Top(s).pending| + |Top(s).done|)
  {
    ReachedInv(actions);
    hide Run, Runs, Marked, StackSize, Conserved, Increasing, OpenBatchesEmpty;
    var s := Run(Init(), actions);
    EmptyMeans(s);
    if Enabled(s, Close) {
      CloseNeverUnderflows(s);
    }
  }

  // A future that has returned its result is never polled again.
  lemma {:induction false} NeverPolledAfterReady(actions: seq<Action>)
    requires Runs(Init(), actions) && Enabled(Run(Init(), actions), Begin)
    ensures var s := Run(Init(), actions); Top(s).rest[0] !in s.outcome
  {
    ReachedInv(actions);
    hide Run, Runs, Marked;
    var s := Run(Init(), actions);
    TopParts(s);
    hide StackLine, StackCount, StackSize, Places;
    assert Top(s).rest[0] in FrameLine(Top(s));
    assert Top(s).rest[0] in Line(s);
  }

  // Each completed future is in exactly one place, with the outcome it returned, so it is
  // resolved at most once.
  lemma {:induction false} ResolvedAtMostOnce(actions: seq<Action>, f: Fut, outcome: nat)
    requires Runs(Init(), actions)
    ensures var s := Run(Init(), actions);
            var c := Completed(f, outcome);
            && s.resolved[c] + s.cancelled[c] + s.dropped[c] <= 1
            && (c in s.resolved ==> f in s.outcome && s.outcome[f] == outcome && c !in s.ready)
  {
    ReachedInv(actions);
    hide Run, Runs, Marked;
    var s := Run(Init(), actions);
    var c := Completed(f, outcome);
    assert Places(s, c) > 0 ==> Places(s, Completed(f, s.outcome[f])) == 1;
  }

  // When every call has returned and nothing is ready, a future is queued or it completed and
  // was resolved, found cancelled, or lost to a failed publish: exactly one of these.
  lemma {:induction false} QuietAccounting(actions: seq<Action>, f: Fut)
    requires Runs(Init(), actions)
    requires var s := Run(Init(), actions); s.stack == [] && s.ready == [] && f < s.next
    ensures var s := Run(Init(), actions);
            && (f in s.entries <==> f !in s.outcome)
            && (f in s.outcome ==>
                 var c := Completed(f, s.outcome[f]);
                 s.resolved[c] + s.cancelled[c] + s.dropped[c] == 1)
  {
    ReachedInv(actions);
    hide Run, Runs, Marked;
    var s := Run(Init(), actions);
    assert Line(s) == s.entries;
    assert s.entries != [] ==> Line(s)[0] == s.entries[0];
  }

  ghost predicate NoFailure(actions: seq<Action>) {
    forall i :: 0 <= i < |actions| ==> !actions[i].FailDelivery?
  }

  lemma {:induction false} DroppedGrows(s: State, actions: seq<Action>)
    requires Runs(s, actions)
    ensures |Run(s, actions).dropped| >= |s.dropped|
    ensures |Run(s, actions).dropped| == |s.dropped| <==> NoFailure(actions)
    decreases |actions|
  {
    if actions != [] {
      var t := Next(s, actions[0]);
      DroppedGrows(t, actions[1..]);
      if NoFailure(actions) {
        assert !actions[0].FailDelivery?;
        forall i | 0 <= i < |actions[1..]|
          ensures !actions[1..][i].FailDelivery?
        {
          assert actions[1..][i] == actions[i + 1];
        }
      } else {
        assert actions[0].FailDelivery? || !NoFailure(actions[1..]);
      }
    }
  }

  // `publish` loses part of its drained batch exactly in the runs where a delivery fails.
  lemma {:induction false} NothingLostIffNoFailure(actions: seq<Action>)
    requires Runs(Init(), actions)
    ensures Run(Init(), actions).dropped == multiset{} <==> NoFailure(actions)
  {
    DroppedGrows(Init(), actions);
  }

  // A run in which two futures complete in one batch and the delivery of the first fails: the
  // second is never resolved.
  const LOSING_RUN: seq<Action> :=
    [Register, Register, Open(0), Begin, End(Some(7)), Begin, End(Some(8)), Close, Drain, FailDelivery]

  const BATCH: State := Init().(
    polling := 2, stack := [Polling(Mark(0, 0), None, [0, 1], [], [])], next := 2, passes := 1)

  const DRAINED: State := Init().(
    stack := [Publishing([Completed(0, 7), Completed(1, 8)])], next := 2, outcome := map[0 := 7, 1 := 8],
    passes := 1, lastPoll := map[0 := Mark(0, 0), 1 := Mark(0, 0)])

  lemma {:induction false} LosingRunStarts()
    ensures Runs(BATCH, LOSING_RUN[3..]) ==> Runs(Init(), LOSING_RUN)
    ensures Runs(BATCH, LOSING_RUN[3..]) ==> Run(Init(), LOSING_RUN) == Run(BATCH, LOSING_RUN[3..])
  {
    hide Runs, Run;
    var s0 := Init().(entries := [0, 1], next := 2);
    assert Next(Init(), Register) == Init().(entries := [0], next := 1);
    assert Next(Next(Init(), Register), Register) == s0;
    assert Next(s0, Open(0)) == BATCH;
    if Runs(BATCH, LOSING_RUN[3..]) {
      RunStep(s0, LOSING_RUN, 2);
      RunStep(Next(Init(), Register), LOSING_RUN, 1);
      RunStep(Init(), LOSING_RUN, 0);
      assert LOSING_RUN[0..] == LOSING_RUN;
    }
  }

  // Polling the next future of the innermost batch to completion.
  function Complete(s: State, outcome: nat): State
    requires PollsAt(s) && Top(s).rest != []
  {
    var top := Top(s);
    SetTop(s, top.(rest := top.rest[1..], done := top.done + [Completed(top.rest[0], outcome)]))
      .(outcome := s.outcome[top.rest[0] := outcome], lastPoll := s.lastPoll[top.rest[0] := top.mark])
  }

  lemma {:induction false} CompleteSteps(s: State, outcome: nat, actions: seq<Action>, i: nat)
    requires Enabled(s, Begin) && i + 1 < |actions|
    requires actions[i] == Begin && actions[i + 1] == End(Some(outcome))
    requires Runs(Complete(s, outcome), actions[i + 2..])
    ensures Runs(s, actions[i..])
    ensures Run(s, actions[i..]) == Run(Complete(s, outcome), actions[i + 2..])
  {
    hide Runs, Run;
    var began := Next(s, Begin);
    assert Next(began, End(Some(outcome))).stack == Complete(s, outcome).stack;
    assert Next(began, End(Some(outcome))) == Complete(s, outcome);
    RunStep(began, actions, i + 1);
    RunStep(s, actions, i);
  }

  const HALF: State := BATCH.(
    stack := [Polling(Mark(0, 0), None, [1], [], [Completed(0, 7)])], outcome := map[0 := 7],
    lastPoll := map[0 := Mark(0, 0)])

  const POLLED: State := BATCH.(
    stack := [Polling(Mark(0, 0), None, [], [], [Completed(0, 7), Completed(1, 8)])],
    outcome := map[0 := 7, 1 := 8], lastPoll := map[0 := Mark(0, 0), 1 := Mark(0, 0)])

  lemma {:induction false} FirstHalf()
    ensures Enabled(BATCH, Begin) && Complete(BATCH, 7) == HALF
  {
    assert [0, 1][1..] == [1] && Top(BATCH).rest[1..] == [1];
    assert Below(BATCH) == [] && [] + [Completed(0, 7)] == [Completed(0, 7)];
    assert Complete(BATCH, 7).stack == HALF.stack;
  }

  lemma {:induction false} SecondHalf()
    ensures Enabled(HALF, Begin) && Complete(HALF, 8) == POLLED
  {
    assert [1][1..] == [] && Top(HALF).rest[1..] == [];
    assert Below(HALF) == [];
    assert [Completed(0, 7)] + [Completed(1, 8)] == [Completed(0, 7), Completed(1, 8)];
    assert Complete(HALF, 8).stack == POLLED.stack;
  }

  lemma {:induction false} SettledAndDrained()
    ensures Enabled(POLLED, Close) && Enabled(Next(POLLED, Close), Drain)
    ensures Next(Next(POLLED, Close), Drain) == DRAINED
  {
    var both := [Completed(0, 7), Completed(1, 8)];
    assert Below(POLLED) == [];
    assert [] + both == both;
    assert Next(POLLED, Close) == POLLED.(stack := [], polling := 0, ready := both);
    assert [] + [Publishing(both)] == [Publishing(both)];
  }

  lemma {:induction false} LosingRunPolls()
    ensures Runs(DRAINED, LOSING_RUN[9..]) ==> Runs(BATCH, LOSING_RUN[3..])
    ensures Runs(DRAINED, LOSING_RUN[9..]) ==> Run(BATCH, LOSING_RUN[3..]) == Run(DRAINED, LOSING_RUN[9..])
  {
    hide Runs, Run;
    FirstHalf();
    SecondHalf();
    SettledAndDrained();
    hide Next, Enabled, BATCH, HALF, POLLED, DRAINED, Complete;
    if Runs(DRAINED, LOSING_RUN[9..]) {
      RunStep(Next(POLLED, Close), LOSING_RUN, 8);
      RunStep(POLLED, LOSING_RUN, 7);
      CompleteSteps(HALF, 8, LOSING_RUN, 5);
      CompleteSteps(BATCH, 7, LOSING_RUN, 3);
    }
  }

  lemma {:induction false} FailedPublishLosesTheRest()
    ensures Runs(Init(), LOSING_RUN)
    ensures var s := Run(Init(), LOSING_RUN);
            && s.stack == [] && s.ready == [] && s.resolved == multiset{}
            && s.dropped == multiset{Completed(0, 7), Completed(1, 8)}
  {
    LosingRunStarts();
    LosingRunPolls();
    assert LOSING_RUN[10..] == [];
    RunStep(DRAINED, LOSING_RUN, 9);
    assert multiset([Completed(0, 7), Completed(1, 8)]) == multiset{Completed(0, 7), Completed(1, 8)};
    hide Runs, LOSING_RUN;
  }

  lemma {:induction false} RunStep(s: State, actions: seq<Action>, i: nat)
    requires i < |actions| && Enabled(s, actions[i]) && Runs(Next(s, actions[i]), actions[i + 1..])
    ensures Runs(s, actions[i..])
    ensures Run(s, actions[i..]) == Run(Next(s, actions[i]), actions[i + 1..])
  {
    assert actions[i..][1..] == actions[i + 1..];
  }

  // A future registered by a poll of a pass waits in the queue without having been polled: here the
  // pass polls future 0 alone and leaves future 1 behind it.
  const REGISTERING_RUN: seq<Action> := [Register, Open(0), Begin, Register, End(None), Close]

  const PASS_OPEN: State := Init().(
    polling := 1, stack := [Polling(Mark(0, 0), None, [0], [], [])], next := 1, passes := 1)

  const PASS_ENDED: State := PASS_OPEN.(
    entries := [1], stack := [Polling(Mark(0, 0), None, [], [0], [])], next := 2, lastPoll := map[0 := Mark(0, 0)])

  lemma {:induction false} PassRegisters()
    ensures Enabled(PASS_OPEN, Begin) && Enabled(Next(PASS_OPEN, Begin), Register)
    ensures var s := Next(Next(PASS_OPEN, Begin), Register);
            Enabled(s, End(None)) && Next(s, End(None)) == PASS_ENDED
  {
    assert [0][1..] == [];
    assert Top(PASS_OPEN).rest[1..] == [];
    var s := Next(Next(PASS_OPEN, Begin), Register);
    assert Top(s) == Polling(Mark(0, 0), Some(0), [], [], []);
    assert Below(s) == [] && Top(s).pending + [0] == [0];
    assert Next(s, End(None)).stack == PASS_ENDED.stack;
  }

  lemma {:induction false} PassOpensAndCloses(s1: State, s6: State)
    requires s1 == Init().(entries := [0], next := 1)
    requires s6 == Next(PASS_ENDED, Close)
    ensures Next(Init(), Register) == s1 && Next(s1, Open(0)) == PASS_OPEN
    ensures s6.entries == [0, 1] && s6.ready == [] && s6.stack == [] && s6.lastPoll == map[0 := Mark(0, 0)]
  {
  }

  lemma {:induction false} RegisteredDuringPassWaits()
    ensures Runs(Init(), REGISTERING_RUN)
    ensures var s := Run(Init(), REGISTERING_RUN);
            && s.entries == [0, 1] && s.ready == [] && s.stack == []
            && s.lastPoll == map[0 := Mark(0, 0)]
  {
    hide Runs, Run;
    var s1 := Init().(entries := [0], next := 1);
    assert Enabled(PASS_ENDED, Close);
    var s6 := Next(PASS_ENDED, Close);
    PassOpensAndCloses(s1, s6);
    PassRegisters();
    hide Next, Enabled, Init, PASS_OPEN, PASS_ENDED;
    var s3 := Next(PASS_OPEN, Begin);
    var s4 := Next(s3, Register);
    var r5 := [Close] + [];
    RunCons(PASS_ENDED, Close, []);
    RunCons(s4, End(None), r5);
    RunCons(s3, Register, [End(None)] + r5);
    RunCons(PASS_OPEN, Begin, [Register] + ([End(None)] + r5));
    RunCons(s1, Open(0), [Begin] + ([Register] + ([End(None)] + r5)));
    RunCons(Init(), Register, [Open(0)] + ([Begin] + ([Register] + ([End(None)] + r5))));
    assert REGISTERING_RUN == [Register] + ([Open(0)] + ([Begin] + ([Register] + ([End(None)] + r5))));
    NoSteps(s6);
  }

  lemma {:induction false} RunCons(s: State, a: Action, rest: seq<Action>)
    requires Enabled(s, a)
    ensures Runs(s, [a] + rest) <==> Runs(Next(s, a), rest)
    ensures Runs(Next(s, a), rest) ==> Run(s, [a] + rest) == Run(Next(s, a), rest)
  {
    assert ([a] + rest)[1..] == rest;
  }

  lemma {:induction false} NoSteps(s: State)
    ensures Runs(s, []) && Run(s, []) == s
  {
  }
}
