/**
 Driving one guest coroutine.  A poll of the coroutine publishes what the host futures returned,
 steps the event loop once and decides how it will be woken again.
 */
module Coroutine {
  import opened Wrappers
  import FutureRuns
  import HostFutures
  import LastPolls
  import Timer

  datatype Progress = Idle | Ready | Waiting(delay: nat) | Blocked

  // Everything one poll of the coroutine meets outside this model: whether the guest may run, how
  // the host futures behave in the two passes over them, what guest code run by the step registers,
  // what the event loop reports, whether the guest task is done, and the clock.
  datatype Turn = Turn(
    beginOk: bool,
    firstPass: seq<HostFutures.Poll>,
    aborted: bool,
    driverOk: bool, prepareOk: bool,
    deliveries: seq<HostFutures.Delivery>,
    stepActs: seq<HostFutures.Act>,
    step: Option<Progress>,
    taskOk: bool, done: bool, extractOk: bool,
    remaining: Option<nat>,
    interval: Option<nat>,
    now: nat, created: nat, polled: nat,
    secondPass: seq<HostFutures.Poll>)

  predicate Plausible(turn: Turn) {
    turn.now <= turn.created <= turn.polled && (turn.step.Some? ==> !turn.step.value.Blocked?)
  }

  // The timer is asked for the clamped delay.
  function Asked(delay: nat, turn: Turn): Timer.Reading {
    Timer.Reading(Timer.Clamp(delay, turn.remaining, turn.interval), turn.now, turn.created, turn.polled)
  }

  datatype Answer = Finished(ok: bool) | Pending

  type Trace = seq<FutureRuns.Action>

  // The calls into the queue lead from one state of it to another.
  ghost predicate Leads(s: FutureRuns.State, trace: Trace, t: FutureRuns.State) {
    FutureRuns.Runs(s, trace) && t == FutureRuns.Run(s, trace)
  }

  lemma {:induction false} LeadsOn(s: FutureRuns.State, a: Trace, t: FutureRuns.State, b: Trace, u: FutureRuns.State)
    requires Leads(s, a, t) && Leads(t, b, u)
    ensures Leads(s, a + b, u)
  {
    HostFutures.RunsAppend(s, a, b);
  }

  lemma {:induction false} LeadsNowhere(s: FutureRuns.State)
    ensures Leads(s, [], s)
  {
  }

  // A pass with that waker led from `s` to `t`, and of the futures now queued it was the last to poll
  // exactly those that were registered before it.
  ghost predicate Passed(s: FutureRuns.State, pass: Trace, t: FutureRuns.State, waker: Waker) {
    && Leads(s, pass, t) && t.stack == s.stack
    && pass != [] && pass[0] == FutureRuns.Open(waker) && pass[|pass| - 1] == FutureRuns.Close
    && forall f :: f in t.entries ==>
         (HostFutures.PolledBy(t, f, FutureRuns.Mark(waker, s.passes)) <==> f < s.next)
  }

  // The calls begin with a pass with that waker, and of the futures queued before and after them it was
  // the last to poll exactly those that no later pass took, with whatever waker.
  ghost predicate Carried(s: FutureRuns.State, trace: Trace, t: FutureRuns.State, waker: Waker) {
    && Leads(s, trace, t)
    && forall f :: f in s.entries && f in t.entries ==>
         && trace != [] && trace[0] == FutureRuns.Open(waker)
         && (LastPolls.LastPollOf(t, f) == Some(FutureRuns.Mark(waker, s.passes)) <==>
             LastPolls.LastTaker(FutureRuns.Next(s, trace[0]), trace[1..], f).None?)
  }

  lemma {:induction false} FirstPassCarries(s: FutureRuns.State, trace: Trace, t: FutureRuns.State, waker: Waker)
    requires FutureRuns.Inv(s) && Leads(s, trace, t)
    requires s.entries == [] || (trace != [] && trace[0] == FutureRuns.Open(waker))
    ensures Carried(s, trace, t, waker)
  {
    hide FutureRuns.Inv, LastPolls.LastPollOf;
    forall f | f in s.entries && f in t.entries
      ensures LastPolls.LastPollOf(t, f) == Some(FutureRuns.Mark(waker, s.passes)) <==>
              LastPolls.LastTaker(FutureRuns.Next(s, trace[0]), trace[1..], f).None?
    {
      LastPolls.FirstPassHoldsIff(s, trace, f);
    }
  }

  // Every future of a batch whose poll returned has its outcome.
  ghost predicate Answered(batch: seq<FutureRuns.Fut>, polls: seq<HostFutures.Poll>, s: FutureRuns.State) {
    forall i :: 0 <= i < |batch| && HostFutures.OutcomeOf(polls, i).Some? ==>
      batch[i] in s.outcome && s.outcome[batch[i]] == HostFutures.OutcomeOf(polls, i).value
  }

  // The results of a batch are the last that are ready.
  ghost predicate Gathered(batch: seq<FutureRuns.Fut>, polls: seq<HostFutures.Poll>, s: FutureRuns.State) {
    HostFutures.EndsWith(s.ready, HostFutures.Results(batch, polls, |batch|))
  }

  lemma {:induction false} StillAnswered(
    batch: seq<FutureRuns.Fut>, polls: seq<HostFutures.Poll>, s: FutureRuns.State, t: FutureRuns.State)
    requires Answered(batch, polls, s) && HostFutures.Kept(s, t)
    ensures Answered(batch, polls, t)
  {
  }

  // One of the deliveries of so many results fails.
  predicate DeliveryFails(deliveries: seq<HostFutures.Delivery>, n: nat) {
    exists i :: 0 <= i < n && i < |deliveries| && deliveries[i].Fails?
  }

  lemma {:induction false} NothingFails(deliveries: seq<HostFutures.Delivery>)
    ensures !DeliveryFails(deliveries, 0)
  {
  }

  // What can go wrong in the step of a poll: there is no driver, the task cannot be made, one of the
  // results ready by then cannot be delivered, the loop fails, or the task raised.
  predicate StepFails(turn: Turn, hadDriver: bool, hadTask: bool, ready: nat) {
    || (!hadDriver && !turn.driverOk) || (!hadTask && !turn.prepareOk)
    || DeliveryFails(turn.deliveries, ready) || turn.step.None? || !turn.taskOk
  }

  class AsyncRuntime {
    const queue: HostFutures.PendingHostFutures

    constructor ()
      ensures fresh(queue) && queue.Valid() && queue.run == FutureRuns.Init()
    {
      queue := new HostFutures.PendingHostFutures();
    }

    // Ready results are published before the loop runs; an idle loop with host futures outstanding
    // is blocked on them.
    method Advance(turn: Turn) returns (progress: Option<Progress>, ghost trace: Trace)
      requires queue.Valid() && FutureRuns.Free(queue.run) && Plausible(turn)
      modifies queue
      ensures queue.Valid() && HostFutures.Later(old(queue.run), queue.run)
      ensures Leads(old(queue.run), trace, queue.run)
      ensures progress.None? <==> turn.step.None? || DeliveryFails(turn.deliveries, |old(queue.ready)|)
      ensures progress.Some? ==>
                HostFutures.Settled(queue.run, old(queue.ready), turn.deliveries, |old(queue.ready)|)
      ensures progress == Some(Blocked) <==>
                progress.Some? && turn.step == Some(Idle) && !FutureRuns.IsEmpty(queue.run)
      ensures progress.Some? && progress != Some(Blocked) ==> progress == turn.step
    {
      var ok;
      ok, trace := queue.Publish(turn.deliveries);
      if !ok || turn.step.None? {
        return None, trace;
      }
      ghost var published := queue.run;
      ghost var acts := queue.Perform(turn.stepActs);
      HostFutures.LaterTrans(old(queue.run), published, queue.run);
      HostFutures.StillSettled(published, queue.run, old(queue.ready), turn.deliveries, |old(queue.ready)|);
      LeadsOn(old(queue.run), trace, published, acts, queue.run);
      trace := trace + acts;
      hide Leads, HostFutures.Later, HostFutures.Settled;
      if turn.step.value.Idle? {
        var nothing := queue.HasNothing();
        FutureRuns.EmptyMeans(queue.run);
        if !nothing {
          return Some(Blocked), trace;
        }
      }
      return turn.step, trace;
    }
  }

  // One driver for each guest, made when a coroutine first needs it.
  class AsyncDriverSlot {
    var driver: AsyncRuntime?

    constructor ()
      ensures driver == null
    {
      driver := null;
    }

    ghost predicate Valid()
      reads this, if driver == null then {} else {driver.queue}
    {
      driver != null ==> driver.queue.Valid() && FutureRuns.Free(driver.queue.run)
    }

    // The state of the queue; without a driver nothing was registered yet.
    ghost function Queue(): FutureRuns.State
      reads this, if driver == null then {} else {driver.queue}
    {
      if driver == null then FutureRuns.Init() else driver.queue.run
    }

    method Ensure(ok: bool) returns (created: bool)
      requires Valid()
      modifies this
      ensures Valid() && created == (old(driver) != null || ok) == (driver != null)
      ensures old(driver) != null ==> driver == old(driver)
      ensures old(driver) == null && driver != null ==> fresh(driver) && fresh(driver.queue)
      ensures Queue() == old(Queue())
    {
      if driver == null && ok {
        driver := new AsyncRuntime();
      }
      created := driver != null;
    }

    method PollAll(waker: Waker, polls: seq<HostFutures.Poll>) returns (ghost pass: Trace)
      requires Valid()
      modifies if driver == null then {} else {driver.queue}
      ensures Valid() && Leads(old(Queue()), pass, Queue())
      ensures driver != null ==>
                && Passed(old(Queue()), pass, Queue(), waker)
                && HostFutures.Later(old(Queue()), Queue())
                && Answered(old(Queue()).entries, polls, Queue())
                && Gathered(old(Queue()).entries, polls, Queue())
    {
      hide FutureRuns.Runs, FutureRuns.Run, HostFutures.Kept, HostFutures.NewPolls, HostFutures.PolledBy;
      hide FutureRuns.Inv;
      if driver == null {
        LeadsNowhere(FutureRuns.Init());
        return [];
      }
      pass := driver.queue.PollAll(waker, polls);
    }
  }

  class CoroutineFuture {
    var active: bool
    var task: bool
    const slot: AsyncDriverSlot
    const sleep: Timer.ReusableTimer
    // How far the clock may advance while a sleep is made.
    ghost const skew: nat

    constructor (slot: AsyncDriverSlot, ghost skew: nat)
      requires slot.Valid()
      ensures Valid() && this.slot == slot && this.skew == skew && !active && !task
      ensures fresh(sleep)
    {
      active, task := false, false;
      this.slot := slot;
      this.skew := skew;
      sleep := new Timer.ReusableTimer();
    }

    ghost predicate Valid()
      reads this, slot, sleep, if slot.driver == null then {} else {slot.driver.queue}
    {
      slot.Valid() && Timer.Inv(sleep.Snap(), skew)
    }

    // The guest task is made on the first poll that gets this far, and never again.
    method Stepped(turn: Turn) returns (progress: Option<Progress>, ghost trace: Trace)
      requires Valid() && Plausible(turn)
      modifies this`task, slot, if slot.driver == null then {} else {slot.driver.queue}
      ensures Valid() && (progress.Some? ==> task && slot.driver != null)
      ensures progress.None? <==>
                StepFails(turn, old(slot.driver) != null, old(task), |old(slot.Queue()).ready|)
      ensures slot.driver != null <==> old(slot.driver) != null || turn.driverOk
      ensures task <==> old(task) || (slot.driver != null && turn.prepareOk)
      ensures progress.Some? ==>
                var ready := old(slot.Queue()).ready;
                HostFutures.Settled(slot.Queue(), ready, turn.deliveries, |ready|)
      ensures Leads(old(slot.Queue()), trace, slot.Queue())
      ensures progress.Some? && progress != Some(Blocked) ==> progress == turn.step
      ensures progress == Some(Blocked) ==> turn.step == Some(Idle)
      ensures progress == Some(Blocked) ==> !FutureRuns.IsEmpty(slot.Queue())
      ensures progress == Some(Idle) ==> FutureRuns.IsEmpty(slot.Queue())
      ensures old(slot.driver) != null ==>
                slot.driver == old(slot.driver) && HostFutures.Kept(old(slot.Queue()), slot.Queue())
      ensures old(slot.driver) == null && slot.driver != null ==>
                fresh(slot.driver) && fresh(slot.driver.queue)
    {
      hide FutureRuns.Runs, FutureRuns.Run, HostFutures.Kept, HostFutures.NewPolls, FutureRuns.IsEmpty;
      hide Leads, FutureRuns.Inv, HostFutures.Settled, DeliveryFails;
      KeepsItself(slot.Queue());
      LeadsNowhere(slot.Queue());
      NothingFails(turn.deliveries);
      var created := slot.Ensure(turn.driverOk);
      if !created || (!task && !turn.prepareOk) {
        return None, [];
      }
      task := true;
      progress, trace := slot.driver.Advance(turn);
      if !turn.taskOk {
        return None, trace;
      }
    }

    lemma {:induction false} KeepsItself(s: FutureRuns.State)
      ensures HostFutures.Kept(s, s)
    {
    }

    // The sleep that is polled with the waker: still ahead, and over within the clamped delay and
    // the slack.
    ghost predicate Rests(waker: Waker, turn: Turn)
      reads sleep
    {
      && turn.step.Some? && turn.step.value.Waiting?
      && sleep.watcher == Some(waker) && sleep.sleep.Some? && turn.polled < sleep.sleep.value
      && sleep.sleep.value <= turn.now + Asked(turn.step.value.delay, turn).duration + Timer.SLACK + skew
    }

    method Rest(waker: Waker, delay: nat, turn: Turn) returns (woken: bool)
      requires Timer.Inv(sleep.Snap(), skew) && Plausible(turn) && turn.created - turn.now <= skew
      modifies sleep
      ensures Timer.Inv(sleep.Snap(), skew)
      ensures turn.step == Some(Waiting(delay)) ==> woken || Rests(waker, turn)
      ensures woken <==> turn.polled >= Timer.SleepEnd(old(sleep.Snap()), Asked(delay, turn))
    {
      woken := sleep.Poll(waker, Asked(delay, turn));
    }

    method LastPass(waker: Waker, polls: seq<HostFutures.Poll>) returns (woken: bool, ghost pass: Trace)
      requires slot.Valid() && slot.driver != null
      modifies slot.driver.queue
      ensures slot.Valid() && Passed(old(slot.Queue()), pass, slot.Queue(), waker)
      ensures HostFutures.Kept(old(slot.Queue()), slot.Queue())
      ensures woken <==> slot.Queue().ready != []
    {
      pass := slot.PollAll(waker, polls);
      hide Passed, HostFutures.Kept, HostFutures.NewPolls, FutureRuns.Inv;
      woken := slot.driver.queue.HasReady();
    }

    // How the coroutine waits to be polled again.
    method Wait(waker: Waker, progress: Progress, turn: Turn) returns (woken: bool, ghost pass: Trace)
      requires Valid() && slot.driver != null
      requires Plausible(turn) && turn.created - turn.now <= skew
      requires Some(progress) == turn.step || (progress.Blocked? && turn.step == Some(Idle))
      modifies sleep, slot.driver.queue
      ensures Valid() && HostFutures.Kept(old(slot.Queue()), slot.Queue())
      ensures woken <==> WakesAtOnce(turn, old(sleep.Snap()))
      ensures turn.step.value.Waiting? ==> woken || Rests(waker, turn)
      ensures turn.step.value.Ready? ==> woken
      ensures turn.step.value.Idle? ==> woken || slot.Queue().ready == []
      ensures if turn.step.value.Idle? then Passed(old(slot.Queue()), pass, slot.Queue(), waker)
              else slot.Queue() == old(slot.Queue())
    {
      hide Rests, Passed, Timer.SleepEnd, Timer.Inv, Asked, HostFutures.Kept, FutureRuns.Inv;
      KeepsItself(slot.Queue());
      match progress {
        case Ready => return true, [];
        case Waiting(delay) =>
          woken := Rest(waker, delay, turn);
          pass := [];
        case _ => woken, pass := LastPass(waker, turn.secondPass);
      }
    }

    // What wakes a waker during its own poll, given the timer on entry.
    ghost predicate WakesAtOnce(turn: Turn, timer: Timer.State)
      requires turn.step.Some?
      reads slot, if slot.driver == null then {} else {slot.driver.queue}
    {
      match turn.step.value
      case Ready => true
      case Waiting(delay) => turn.polled >= Timer.SleepEnd(timer, Asked(delay, turn))
      case _ => slot.Queue().ready != []
    }

    // What holds of a waker whose poll stays pending.  It was woken; or the sleep was polled with it, and
    // the first pass still holds with it exactly the futures that no pass during the step took; or the
    // poll ended with a pass over the host futures, nothing is ready after it, and of the futures then
    // queued the pass was the last to poll exactly those registered before it, with this waker.
    ghost predicate WillBeWoken(
      waker: Waker, woken: bool, turn: Turn, s: FutureRuns.State, before: Trace, pass: Trace)
      reads this, slot, sleep, if slot.driver == null then {} else {slot.driver.queue}
    {
      && turn.step.Some? && FutureRuns.Runs(s, before)
      && match turn.step.value
         case Waiting(_) => (woken || Rests(waker, turn)) && Carried(s, before, slot.Queue(), waker)
         case Idle =>
           && (woken || slot.Queue().ready == [])
           && Passed(FutureRuns.Run(s, before), pass, slot.Queue(), waker)
         case _ => woken
    }

    // The rest of a poll once the guest is active: a first pass over the host futures, one step of
    // its guest task, and the decision how to be woken again.
    method PollActive(waker: Waker, turn: Turn)
      returns (answer: Answer, woken: bool, ghost first: Trace, ghost before: Trace, ghost pass: Trace)
      requires Valid() && active && Plausible(turn) && turn.created - turn.now <= skew
      modifies this`task, slot, sleep, if slot.driver == null then {} else {slot.driver.queue}
      ensures Valid()
      ensures FutureRuns.Runs(old(slot.Queue()), first) && first <= before
      ensures old(slot.driver) != null ==>
                && slot.driver == old(slot.driver)
                && Answered(old(slot.Queue()).entries, turn.firstPass, slot.Queue())
                && var polled := FutureRuns.Run(old(slot.Queue()), first);
                   && Passed(old(slot.Queue()), first, polled, waker)
                   && Gathered(old(slot.Queue()).entries, turn.firstPass, polled)
      ensures var ready := FutureRuns.Run(old(slot.Queue()), first).ready;
              && (answer == if turn.aborted || StepFails(turn, old(slot.driver) != null, old(task), |ready|)
                 then Finished(false) else if turn.done then Finished(turn.extractOk) else Pending)
              && (answer != Finished(false) ==>
                   HostFutures.Settled(slot.Queue(), ready, turn.deliveries, |ready|))
      ensures slot.driver != null <==> old(slot.driver) != null || (!turn.aborted && turn.driverOk)
      ensures task <==> old(task) || (!turn.aborted && slot.driver != null && turn.prepareOk)
      ensures answer == Pending ==>
                && slot.driver != null && WillBeWoken(waker, woken, turn, old(slot.Queue()), before, pass)
                && (woken <==> WakesAtOnce(turn, old(sleep.Snap())))
      ensures answer != Pending ==> !woken
    {
      hide FutureRuns.IsEmpty, FutureRuns.Free, FutureRuns.Inv, Rests, WakesAtOnce, Timer.SleepEnd, Asked, Answered;
      hide FutureRuns.Runs, FutureRuns.Run, HostFutures.Kept, HostFutures.NewPolls, HostFutures.PolledBy;
      hide Gathered, HostFutures.Settled, StepFails;
      woken, pass := false, [];
      ghost var had, start := slot.driver != null, slot.Queue();
      FutureRuns.InitIsInv();
      assert FutureRuns.Inv(start);
      first := slot.PollAll(waker, turn.firstPass);
      before := first;
      ghost var polled := slot.Queue();
      LeadsMeans(start, first, polled);
      if turn.aborted {
        return Finished(false), woken, first, before, pass;
      }
      var progress;
      ghost var steps;
      progress, steps := Stepped(turn);
      ghost var stepped := slot.Queue();
      LeadsOn(start, before, polled, steps, stepped);
      before := before + steps;
      if had {
        StillAnswered(start.entries, turn.firstPass, polled, stepped);
      }
      hide Leads;
      if progress.None? {
        return Finished(false), woken, first, before, pass;
      }
      if turn.done {
        return Finished(turn.extractOk), woken, first, before, pass;
      }
      LeadsMeans(start, before, stepped);
      FirstPassCarries(start, before, stepped, waker);
      woken, pass := Wait(waker, progress.value, turn);
      if had {
        StillAnswered(start.entries, turn.firstPass, stepped, slot.Queue());
      }
      KeptSettled(stepped, slot.Queue(), polled.ready, turn.deliveries);
      hide Passed;
      return Pending, woken, first, before, pass;
    }

    lemma {:induction false} KeptSettled(
      s: FutureRuns.State, t: FutureRuns.State, drained: seq<FutureRuns.Completed>,
      deliveries: seq<HostFutures.Delivery>)
      requires HostFutures.Kept(s, t) && HostFutures.Settled(s, drained, deliveries, |drained|)
      ensures HostFutures.Settled(t, drained, deliveries, |drained|)
    {
      HostFutures.StillSettled(s, t, drained, deliveries, |drained|);
    }

    lemma {:induction false} LeadsMeans(s: FutureRuns.State, trace: Trace, t: FutureRuns.State)
      requires Leads(s, trace, t)
      ensures FutureRuns.Runs(s, trace) && t == FutureRuns.Run(s, trace)
    {
    }

    // What a poll answers is decided by the turn and the results ready after its first pass; whatever the
    // answer, the futures queued on entry were polled first; and no wake-up is lost.
    method Poll(waker: Waker, turn: Turn)
      returns (answer: Answer, woken: bool, ghost first: Trace, ghost before: Trace, ghost pass: Trace)
      requires Valid() && Plausible(turn) && turn.created - turn.now <= skew
      modifies this, slot, sleep, if slot.driver == null then {} else {slot.driver.queue}
      ensures Valid()
      ensures old(active) || turn.beginOk <==> active
      ensures !active ==>
                && answer == Finished(false) && !woken && slot.driver == old(slot.driver) && task == old(task)
                && slot.Queue() == old(slot.Queue())
      ensures FutureRuns.Runs(old(slot.Queue()), first) && first <= before
      ensures active && old(slot.driver) != null ==>
                && slot.driver == old(slot.driver)
                && Answered(old(slot.Queue()).entries, turn.firstPass, slot.Queue())
                && var polled := FutureRuns.Run(old(slot.Queue()), first);
                   && Passed(old(slot.Queue()), first, polled, waker)
                   && Gathered(old(slot.Queue()).entries, turn.firstPass, polled)
      ensures active ==>
                var ready := FutureRuns.Run(old(slot.Queue()), first).ready;
                && (answer == if turn.aborted || StepFails(turn, old(slot.driver) != null, old(task), |ready|)
                   then Finished(false) else if turn.done then Finished(turn.extractOk) else Pending)
                && (answer != Finished(false) ==>
                     HostFutures.Settled(slot.Queue(), ready, turn.deliveries, |ready|))
      ensures active ==>
                && (slot.driver != null <==> old(slot.driver) != null || (!turn.aborted && turn.driverOk))
                && (task <==> old(task) || (!turn.aborted && slot.driver != null && turn.prepareOk))
      ensures answer == Pending ==>
                && active && slot.driver != null
                && WillBeWoken(waker, woken, turn, old(slot.Queue()), before, pass)
                && (woken <==> WakesAtOnce(turn, old(sleep.Snap())))
      ensures answer != Pending ==> !woken
    {
      hide WillBeWoken, WakesAtOnce, Answered, Gathered, Passed, StepFails, HostFutures.Settled;
      if !active {
        if !turn.beginOk {
          return Finished(false), false, [], [], [];
        }
        active := true;
      }
      answer, woken, first, before, pass := PollActive(waker, turn);
    }
  }
}
