/**
 The reusable timer behind waiting coroutines, in nanoseconds of one monotone clock.  A poll reads
 the clock, may make a new sleep a little later, and polls the sleep later still.
 */
module Timer {
  import opened Wrappers
  import opened Policy

  const SLACK: nat := 1_000_000

  // When the sleep ends, and the deadline remembered for it.
  datatype State = State(sleep: Option<nat>, deadline: Option<nat>)

  datatype Reading = Reading(duration: nat, now: nat, created: nat, polled: nat)

  predicate InOrder(r: Reading) {
    r.now <= r.created <= r.polled
  }

  predicate Reuses(t: State, r: Reading) {
    && t.sleep.Some? && t.deadline.Some?
    && t.deadline.value > r.now && t.deadline.value <= r.now + r.duration + SLACK
  }

  function SleepEnd(t: State, r: Reading): nat {
    if Reuses(t, r) then t.sleep.value else r.created + r.duration
  }

  function PollAfter(t: State, r: Reading): (State, bool) {
    if r.polled >= SleepEnd(t, r) then (State(None, None), true)
    else if Reuses(t, r) then (t, false)
    else (State(Some(r.created + r.duration), Some(r.now + r.duration)), false)
  }

  // A sleep is made at most `skew` after the clock reading its deadline comes from.
  ghost predicate Inv(t: State, skew: nat) {
    && (t.sleep.Some? <==> t.deadline.Some?)
    && (t.sleep.Some? ==> t.deadline.value <= t.sleep.value <= t.deadline.value + skew)
  }

  predicate History(rs: seq<Reading>, skew: nat) {
    forall i :: 0 <= i < |rs| ==> InOrder(rs[i]) && rs[i].created - rs[i].now <= skew
  }

  function After(rs: seq<Reading>): State {
    if rs == [] then State(None, None) else PollAfter(After(rs[..|rs| - 1]), rs[|rs| - 1]).0
  }

  lemma {:induction false} HistoryKeepsInv(rs: seq<Reading>, skew: nat)
    requires History(rs, skew)
    ensures Inv(After(rs), skew)
  {
    if rs != [] {
      HistoryKeepsInv(rs[..|rs| - 1], skew);
      assert InOrder(rs[|rs| - 1]);
    }
  }

  // After any history of polls, a poll that stays pending leaves a sleep that is still ahead and
  // ends no later than asked, up to the slack and the clock advance while it was made.
  lemma {:induction false} PendingSleepIsPrompt(rs: seq<Reading>, r: Reading, skew: nat)
    requires History(rs + [r], skew) && !PollAfter(After(rs), r).1
    ensures var t := PollAfter(After(rs), r).0;
            t.sleep.Some? && r.polled < t.sleep.value <= r.now + r.duration + SLACK + skew
  {
    assert (rs + [r])[|rs|] == r;
    forall i | 0 <= i < |rs|
      ensures InOrder(rs[i]) && rs[i].created - rs[i].now <= skew
    {
      assert (rs + [r])[i] == rs[i];
    }
    HistoryKeepsInv(rs, skew);
  }

  // Every poll asks for the same instant, and every one stays pending.
  predicate KeepsAsking(rs: seq<Reading>, target: nat) {
    forall i :: 0 <= i < |rs| ==>
      InOrder(rs[i]) && rs[i].now < target && rs[i].now + rs[i].duration == target
      && !PollAfter(After(rs[..i]), rs[i]).1
  }

  // Polling for one fixed instant again and again does not push the sleep away: as long as it stays
  // pending it is the sleep of the first poll.
  lemma {:induction false} SleepDoesNotDrift(rs: seq<Reading>, target: nat)
    requires rs != [] && KeepsAsking(rs, target)
    ensures After(rs) == State(Some(rs[0].created + rs[0].duration), Some(target))
  {
    var before, last := rs[..|rs| - 1], rs[|rs| - 1];
    assert !PollAfter(After(before), last).1;
    if before != [] {
      assert KeepsAsking(before, target) by {
        assert forall i :: 0 <= i < |before| ==> before[i] == rs[i] && before[..i] == rs[..i];
      }
      SleepDoesNotDrift(before, target);
    } else {
      assert After(before) == State(None, None);
    }
    assert last.now < target && last.now + last.duration == target;
    hide KeepsAsking;
  }

  // `clamp`: never wait past the deadline, nor past the interval at which a signal is polled.
  function Clamp(delay: nat, remaining: Option<nat>, interval: Option<nat>): nat {
    var d := if remaining.Some? then Min(delay, remaining.value) else delay;
    if interval.Some? then Min(d, interval.value) else d
  }

  lemma {:induction false} ClampBounds(delay: nat, remaining: Option<nat>, interval: Option<nat>)
    ensures Clamp(delay, remaining, interval) <= delay
    ensures remaining.Some? ==> Clamp(delay, remaining, interval) <= remaining.value
    ensures interval.Some? ==> Clamp(delay, remaining, interval) <= interval.value
    ensures Clamp(delay, remaining, interval) in
              {delay} + (if remaining.Some? then {remaining.value} else {})
                      + (if interval.Some? then {interval.value} else {})
  {
  }

  // Deadline and timer compose: with a budget armed at `start` and read for clamping at `read`, a
  // pending sleep ends by the end of the budget (or by the reading, if that is later) plus the slack
  // and the clock advances between the readings.
  lemma {:induction false} SleepRespectsDeadline(
    rs: seq<Reading>, r: Reading, skew: nat, base: nat, budget: nat, start: nat, read: nat,
    delay: nat, interval: Option<nat>)
    requires base <= start <= read <= r.now && read - base <= U64_MAX && start - base + budget < U64_MAX
    requires r.duration == Clamp(delay, Remaining(base, ArmedAt(base, budget, start), read), interval)
    requires History(rs + [r], skew) && !PollAfter(After(rs), r).1
    ensures PollAfter(After(rs), r).0.sleep.Some?
    ensures PollAfter(After(rs), r).0.sleep.value <=
              (if read < start + budget then start + budget else read) + (r.now - read) + SLACK + skew
  {
    PendingSleepIsPrompt(rs, r, skew);
    DeadlineIsExact(base, budget, start, read);
    ClampBounds(delay, Remaining(base, ArmedAt(base, budget, start), read), interval);
  }

  // A timer that has elapsed is armed again instead of reported.  A poll reports readiness exactly
  // when the clock passes the end of the sleep between two readings of that same poll...
  lemma {:induction false} ReadyOnlyIfClockMovesWithinPoll(rs: seq<Reading>, r: Reading, skew: nat)
    requires History(rs + [r], skew)
    ensures PollAfter(After(rs), r).1 <==> r.polled >= SleepEnd(After(rs), r)
    ensures r.duration > 0 ==> SleepEnd(After(rs), r) > r.now
  {
    assert (rs + [r])[|rs|] == r;
    forall i | 0 <= i < |rs|
      ensures InOrder(rs[i]) && rs[i].created - rs[i].now <= skew
    {
      assert (rs + [r])[i] == rs[i];
    }
    HistoryKeepsInv(rs, skew);
  }

  // ... so waiting out a positive delay never finishes while each poll sees one clock reading, no
  // matter how late the polls come.
  lemma {:induction false} WaitTimerNeverFinishes(rs: seq<Reading>, r: Reading)
    requires History(rs + [r], 0) && r.duration > 0 && r.polled == r.now
    ensures !PollAfter(After(rs), r).1
  {
    ReadyOnlyIfClockMovesWithinPoll(rs, r, 0);
  }

  class ReusableTimer {
    var sleep: Option<nat>
    var deadline: Option<nat>
    // Whom the sleep tells when it ends.
    var watcher: Option<Waker>

    constructor ()
      ensures Snap() == After([])
    {
      sleep, deadline, watcher := None, None, None;
    }

    ghost function Snap(): State
      reads this
    {
      State(sleep, deadline)
    }

    method Poll(waker: Waker, r: Reading) returns (ready: bool)
      requires InOrder(r)
      modifies this
      ensures (Snap(), ready) == PollAfter(old(Snap()), r)
      ensures !ready ==> watcher == Some(waker)
    {
      var target := r.now + r.duration;
      var reuse := match deadline
        case Some(existing) => sleep.Some? && existing > r.now && existing <= target + SLACK
        case None => false;
      if !reuse {
        sleep := Some(r.created + r.duration);
        deadline := Some(target);
        watcher := None;
      }
      if r.polled < sleep.value {
        watcher := Some(waker);
        return false;
      }
      sleep, deadline, watcher := None, None, None;
      return true;
    }
  }
}
