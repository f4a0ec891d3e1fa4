/** Execution budgets: one deadline in 64-bit nanoseconds, where the largest value means "none". */
module Policy {
  import opened Wrappers

  const U64_MAX: nat := 0xFFFF_FFFF_FFFF_FFFF
  const TWO_64: nat := U64_MAX + 1
  // The longest representable duration, in nanoseconds.
  const DURATION_MAX: nat := U64_MAX * 1_000_000_000 + 999_999_999

  function Min(a: nat, b: nat): nat {
    if a < b then a else b
  }

  function Elapsed(base: nat, now: nat): nat {
    if now >= base then now - base else 0
  }

  function ArmedAt(base: nat, budget: nat, now: nat): nat {
    Min(Min(Elapsed(base, now) + budget, DURATION_MAX), U64_MAX)
  }

  function IsArmed(at: nat): bool {
    at != U64_MAX
  }

  // Readings are cut to 64 bits before they are compared.
  function Expired(base: nat, at: nat, now: nat): bool {
    IsArmed(at) && Elapsed(base, now) % TWO_64 >= at
  }

  function Remaining(base: nat, at: nat, now: nat): Option<nat> {
    if !IsArmed(at) then None
    else
      var read := Elapsed(base, now) % TWO_64;
      Some(if at >= read then at - read else 0)
  }

  // While readings fit in 64 bits, a deadline that does not saturate expires exactly when its
  // budget has passed, and says how much is left until then.
  lemma {:induction false} DeadlineIsExact(base: nat, budget: nat, start: nat, now: nat)
    requires base <= start <= now && now - base <= U64_MAX
    requires start - base + budget < U64_MAX
    ensures var at := ArmedAt(base, budget, start);
            && (Expired(base, at, now) <==> now >= start + budget)
            && Remaining(base, at, now) == Some(if now >= start + budget then 0 else start + budget - now)
            && (Expired(base, at, now) <==> Remaining(base, at, now) == Some(0))
  {
    assert (now - base) % TWO_64 == now - base;
  }

  // A budget is lost exactly when it reaches past the last representable instant: such a
  // deadline counts as not armed and never expires.
  lemma {:induction false} ArmingSaturates(base: nat, budget: nat, start: nat)
    ensures IsArmed(ArmedAt(base, budget, start)) <==> Elapsed(base, start) + budget < U64_MAX
    ensures !IsArmed(ArmedAt(base, budget, start)) ==>
              forall now: nat :: !Expired(base, ArmedAt(base, budget, start), now)
  {
  }

  datatype Abort = Timeout | Cancelled | Interrupted

  // The rules that name the reason of an abort agree with the rule that asks for one.
  function AbortError(expired: bool, cancelled: bool): Abort {
    if expired then Timeout else if cancelled then Cancelled else Interrupted
  }

  function ShouldAbort(expired: bool, cancelled: bool): bool {
    cancelled || expired
  }

  // An interruption is renamed by its cause; every other outcome passes through.
  datatype Outcome = Fine | Failed | Aborted(abort: Abort)

  function Classify(outcome: Outcome, expired: bool, cancelled: bool): Outcome {
    match outcome
    case Aborted(Interrupted) =>
      if expired then Aborted(Timeout) else if cancelled then Aborted(Cancelled) else outcome
    case _ => outcome
  }

  lemma {:induction false} AbortRulesAgree(expired: bool, cancelled: bool)
    ensures ShouldAbort(expired, cancelled) <==> AbortError(expired, cancelled) != Interrupted
    ensures Classify(Aborted(Interrupted), expired, cancelled) == Aborted(AbortError(expired, cancelled))
    ensures forall o :: Classify(Classify(o, expired, cancelled), expired, cancelled) == Classify(o, expired, cancelled)
  {
  }

  class Deadline {
    const base: nat
    var at: nat

    constructor (now: nat)
      ensures base == now && at == U64_MAX
    {
      base := now;
      at := U64_MAX;
    }

    method Arm(budget: nat, now: nat)
      modifies this
      ensures at == ArmedAt(base, budget, now)
    {
      var elapsed := Elapsed(base, now);
      var total := if elapsed + budget <= DURATION_MAX then elapsed + budget else DURATION_MAX;
      at := if total <= U64_MAX then total else U64_MAX;
    }

    method Disarm()
      modifies this
      ensures !IsArmed(at)
    {
      at := U64_MAX;
    }
  }

  class ExecutionPolicy {
    const timeout: Option<nat>
    const deadline: Deadline

    constructor (timeout: Option<nat>, now: nat)
      ensures this.timeout == timeout && fresh(deadline)
      ensures deadline.base == now && !IsArmed(deadline.at)
    {
      this.timeout := timeout;
      deadline := new Deadline(now);
    }

    // A tripped signal refuses; otherwise the budget starts, unless a deadline is already running.
    method Begin(cancelled: bool, now: nat) returns (ok: bool)
      modifies deadline
      ensures ok <==> !cancelled
      ensures deadline.at ==
              if ok && timeout.Some? && !IsArmed(old(deadline.at))
              then ArmedAt(deadline.base, timeout.value, now) else old(deadline.at)
    {
      if cancelled {
        return false;
      }
      if timeout.Some? && !IsArmed(deadline.at) {
        deadline.Arm(timeout.value, now);
      }
      return true;
    }
  }
}
