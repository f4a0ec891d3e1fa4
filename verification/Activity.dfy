/**
 Guests being active.  Every activation of a guest is a guard that bumps the guest's depth and is
 pushed on one stack shared by all guests; only the outermost operation of a guest starts its
 deadline.  Guards may be dropped in any order.
 */
module Activity {
  import opened Wrappers
  import opened Policy

  type GuestId = nat

  datatype Activation = Operation | Cleanup

  // `outermost` is the history of how an active guest became active.
  datatype Guest = Guest(
    timeout: Option<nat>, base: nat, depth: nat, at: nat, outermost: Option<Activation>)

  // `live` are the guards that exist; `panicked` records that a balance check failed.
  datatype State = State(
    guests: map<GuestId, Guest>, closed: set<GuestId>, active: seq<GuestId>,
    live: multiset<GuestId>, panicked: bool)

  datatype Action =
    | Activate(guest: GuestId, activation: Activation, cancelled: bool, now: nat)
    | DropGuard(guest: GuestId)

  function Begins(g: Guest, activation: Activation, now: nat): Guest {
    if g.depth > 0 then g.(depth := g.depth + 1)
    else
      var at :=
        if activation.Operation? && g.timeout.Some? && !IsArmed(g.at)
        then ArmedAt(g.base, g.timeout.value, now) else g.at;
      g.(depth := 1, at := at, outermost := Some(activation))
  }

  function Finishes(g: Guest): Guest
    requires g.depth > 0
  {
    if g.depth == 1 then g.(depth := 0, at := U64_MAX, outermost := None) else g.(depth := g.depth - 1)
  }

  predicate Rejected(g: Guest, activation: Activation, cancelled: bool) {
    g.depth == 0 && activation.Operation? && cancelled
  }

  predicate Enabled(s: State, a: Action) {
    match a
    case Activate(g, _, _, _) => g in s.guests
    case DropGuard(g) => s.live[g] > 0
  }

  // The two checks the code makes when a guard goes away: the depth and the stack are balanced.
  predicate Balanced(s: State, g: GuestId) {
    g in s.guests && s.guests[g].depth > 0 && s.active != []
  }

  function Next(s: State, a: Action): State
    requires Enabled(s, a)
  {
    match a
    case Activate(g, activation, cancelled, now) =>
      if Rejected(s.guests[g], activation, cancelled) then s
      else s.(guests := s.guests[g := Begins(s.guests[g], activation, now)],
              active := s.active + [g], live := s.live + multiset{g})
    case DropGuard(g) =>
      if !Balanced(s, g) then s.(panicked := true)
      else s.(guests := s.guests[g := Finishes(s.guests[g])],
              active := s.active[..|s.active| - 1], live := s.live - multiset{g})
  }

  ghost predicate Inv(s: State) {
    && !s.panicked
    && |s.active| == |s.live|
    && (forall g :: g in s.live ==> g in s.guests)
    && (forall g :: g in s.guests ==> GuestInv(s.guests[g]) && s.guests[g].depth == s.live[g])
  }

  ghost predicate GuestInv(g: Guest) {
    && (IsArmed(g.at) ==> g.outermost == Some(Operation))
    && (g.outermost.Some? <==> g.depth > 0)
  }

  // Both "balanced" checks hold whenever a live guard is dropped.
  lemma {:induction false} DropIsBalanced(s: State, g: GuestId)
    requires Inv(s) && s.live[g] > 0
    ensures Balanced(s, g)
  {
    assert g in s.live;
    assert multiset{g} <= s.live;
    assert |s.live| == |s.live - multiset{g}| + 1;
  }

  lemma {:induction false} StepKeepsInv(s: State, a: Action)
    requires Inv(s) && Enabled(s, a)
    ensures Inv(Next(s, a))
  {
    if a.DropGuard? {
      DropIsBalanced(s, a.guest);
      assert |s.live| == |s.live - multiset{a.guest}| + 1;
    }
  }

  predicate Runs(s: State, actions: seq<Action>)
    decreases |actions|
  {
    actions == [] || (Enabled(s, actions[0]) && Runs(Next(s, actions[0]), actions[1..]))
  }

  function Run(s: State, actions: seq<Action>): State
    requires Runs(s, actions)
    decreases |actions|
  {
    if actions == [] then s else Run(Next(s, actions[0]), actions[1..])
  }

  // Fresh guests: nobody active, nothing armed.
  ghost predicate Idle(s: State) {
    && s.active == [] && s.live == multiset{} && !s.panicked
    && forall g :: g in s.guests ==>
         s.guests[g].depth == 0 && !IsArmed(s.guests[g].at) && s.guests[g].outermost.None?
  }

  // For every interleaving of activations of any number of guests, with guards dropped in any
  // order: no balance check ever fires, each guest is as deep as it has live guards, the shared
  // stack is as long as there are live guards, and an armed deadline belongs to a guest that is
  // active through an operation.
  lemma {:induction false} EveryRunIsBalanced(s: State, actions: seq<Action>)
    requires Inv(s) && Runs(s, actions)
    ensures Inv(Run(s, actions)) && !Run(s, actions).panicked
    ensures |Run(s, actions).active| == |Run(s, actions).live|
    ensures forall g :: g in Run(s, actions).guests ==>
              var guest := Run(s, actions).guests[g];
              guest.depth == Run(s, actions).live[g] && (IsArmed(guest.at) ==> guest.depth > 0)
    decreases |actions|
  {
    if actions != [] {
      StepKeepsInv(s, actions[0]);
      EveryRunIsBalanced(Next(s, actions[0]), actions[1..]);
    }
  }

  lemma {:induction false} IdleIsInv(s: State)
    requires Idle(s)
    ensures Inv(s)
  {
  }

  // The guest never became inactive along the way.
  ghost predicate StaysActive(s: State, actions: seq<Action>, g: GuestId)
    requires Runs(s, actions)
    decreases |actions|
  {
    && g in s.guests && s.guests[g].depth > 0
    && (actions != [] ==> StaysActive(Next(s, actions[0]), actions[1..], g))
  }

  // From the outermost activation until the guest is inactive again its deadline does not move.
  lemma {:induction false} DeadlineIsFixed(s: State, actions: seq<Action>, g: GuestId)
    requires Runs(s, actions) && StaysActive(s, actions, g)
    ensures g in Run(s, actions).guests
    ensures Run(s, actions).guests[g].at == s.guests[g].at
    ensures Run(s, actions).guests[g].outermost == s.guests[g].outermost
    decreases |actions|
  {
    if actions != [] {
      DeadlineIsFixed(Next(s, actions[0]), actions[1..], g);
    }
  }

  // The outermost activation decides: an operation with a budget starts it, a cleanup never does.
  lemma {:induction false} OutermostDecides(s: State, g: GuestId, activation: Activation, cancelled: bool, now: nat)
    requires Inv(s) && g in s.guests && s.guests[g].depth == 0
    ensures var t := Next(s, Activate(g, activation, cancelled, now));
            && (activation.Cleanup? ==> t.guests[g].depth == 1 && !IsArmed(t.guests[g].at))
            && (activation.Operation? && cancelled ==> t == s)
            && (activation.Operation? && !cancelled ==>
                 && t.guests[g].depth == 1
                 && t.guests[g].at ==
                      (if s.guests[g].timeout.Some?
                       then ArmedAt(s.guests[g].base, s.guests[g].timeout.value, now) else U64_MAX))
  {
  }

  // ----- properly nested calls --------------------------------------------------------------------

  // `enter_with` takes a guard only when the guest is not innermost already; a call from guest code
  // into the host always takes one; closing a guest enters it for cleanup first, unless its driver is
  // running.  `inner` are the calls made before it returns.
  datatype Call =
    | EnterWith(guest: GuestId, activation: Activation, cancelled: bool, now: nat, inner: seq<Call>, ok: bool)
    | GuestEnter(guest: GuestId, cancelled: bool, now: nat, inner: seq<Call>, ok: bool)
    | Close(guest: GuestId, driven: bool, cancelled: bool, now: nat, inner: seq<Call>, ok: bool)

  function IsInnermost(s: State, g: GuestId): bool {
    s.active != [] && s.active[|s.active| - 1] == g
  }

  // A call that closes its guest when it gets to it.
  predicate Closes(call: Call) {
    call.Close? && call.ok && !call.driven
  }

  // The guests among them that the runtime knows are closed.
  predicate AllClosed(s: State, calls: seq<Call>) {
    forall i :: 0 <= i < |calls| && Closes(calls[i]) && calls[i].guest in s.guests ==> calls[i].guest in s.closed
  }

  // Guests may have been closed in between, and nothing else moved.
  predicate Restored(s: State, t: State) {
    s.closed <= t.closed && t == s.(closed := t.closed)
  }

  function Guarded(s: State, g: GuestId, activation: Activation, cancelled: bool, now: nat,
                   inner: seq<Call>, ok: bool): (r: (State, bool))
    requires Inv(s) && g in s.guests
    ensures Restored(s, r.0) && Inv(r.0)
    ensures r.1 <==> ok && !Rejected(s.guests[g], activation, cancelled)
    ensures if Rejected(s.guests[g], activation, cancelled) then r.0 == s else AllClosed(r.0, inner)
    ensures inner == [] ==> r.0 == s
    decreases inner, 1
  {
    var a := Activate(g, activation, cancelled, now);
    StepKeepsInv(s, a);
    if Rejected(s.guests[g], activation, cancelled) then (s, false)
    else
      var t := EvalAll(Next(s, a), inner);
      DropUndoesActivate(s, a);
      (Next(t, DropGuard(g)), ok)
  }

  lemma {:induction false} DropUndoesActivate(s: State, a: Action)
    requires Inv(s) && a.Activate? && Enabled(s, a)
    requires !Rejected(s.guests[a.guest], a.activation, a.cancelled)
    ensures var t := Next(s, a);
            && Enabled(t, DropGuard(a.guest)) && Balanced(t, a.guest)
            && Next(t, DropGuard(a.guest)) == s
  {
    var g, t := a.guest, Next(s, a);
    var u := Next(t, DropGuard(g));
    assert Finishes(t.guests[g]) == s.guests[g];
    assert u.guests == s.guests;
    assert u.live == s.live && u.active == s.active;
  }

  function EnterGuest(s: State, g: GuestId, activation: Activation, cancelled: bool, now: nat,
                      inner: seq<Call>, ok: bool): (r: (State, bool))
    requires Inv(s) && g in s.guests
    ensures Restored(s, r.0) && Inv(r.0)
    ensures r.1 <==>
              && ok && g !in s.closed
              && ((s.active != [] && s.active[|s.active| - 1] == g)
                  || s.guests[g].depth > 0 || activation.Cleanup? || !cancelled)
    ensures (r.1 ==> AllClosed(r.0, inner)) && (inner == [] ==> r.0 == s)
    decreases inner, 2
  {
    if g in s.closed then (s, false)
    else if IsInnermost(s, g) then (EvalAll(s, inner), ok)
    else Guarded(s, g, activation, cancelled, now, inner, ok)
  }

  // Whatever a call does inside and however it ends, the shared stack, all depths and all deadlines
  // are as before; guests are only ever closed.  A call into a closed guest fails, and closing one
  // succeeds if it is closed already.
  function Eval(s: State, call: Call): (r: (State, bool))
    requires Inv(s) && call.guest in s.guests
    ensures Restored(s, r.0) && Inv(r.0)
    ensures call.GuestEnter? ==> (r.1 <==> call.ok && (s.guests[call.guest].depth > 0 || !call.cancelled))
    ensures call.EnterWith? && call.guest in s.closed ==> r == (s, false)
    ensures call.EnterWith? && call.guest !in s.closed ==>
              (r.1 <==>
                && call.ok
                && ((s.active != [] && s.active[|s.active| - 1] == call.guest)
                    || s.guests[call.guest].depth > 0 || call.activation.Cleanup? || !call.cancelled))
    ensures call.Close? && call.guest in s.closed ==> r == (s, true)
    ensures call.Close? && call.guest !in s.closed ==>
              (r.1 <==> call.ok && !call.driven) && (r.1 ==> call.guest in r.0.closed)
    ensures r.1 && !(call.Close? && call.guest in s.closed) ==> AllClosed(r.0, call.inner)
    ensures call.inner == [] ==> r.0.closed == s.closed + if call.Close? && r.1 then {call.guest} else {}
    decreases call
  {
    match call
    case GuestEnter(g, cancelled, now, inner, ok) => Guarded(s, g, Operation, cancelled, now, inner, ok)
    case EnterWith(g, activation, cancelled, now, inner, ok) =>
      EnterGuest(s, g, activation, cancelled, now, inner, ok)
    case Close(g, driven, cancelled, now, inner, ok) =>
      if g in s.closed then (s, true)
      else if driven then (s, false)
      else
        var (t, cleared) := EnterGuest(s, g, Cleanup, cancelled, now, inner, ok);
        if cleared then (t.(closed := t.closed + {g}), true) else (t, false)
  }

  // Calls to guests the runtime does not know are refused before they reach this point.
  function EvalAll(s: State, calls: seq<Call>): (r: State)
    requires Inv(s)
    ensures Restored(s, r) && Inv(r) && AllClosed(r, calls)
    ensures calls == [] ==> r == s
    decreases calls, 0
  {
    if calls == [] then s
    else if calls[0].guest !in s.guests then EvalAll(s, calls[1..])
    else EvalAll(Eval(s, calls[0]).0, calls[1..])
  }

  // ----- the objects ------------------------------------------------------------------------------

  class GuestActivity {
    var depth: nat
    const policy: ExecutionPolicy
    ghost var outermost: Option<Activation>

    constructor (timeout: Option<nat>, now: nat)
      ensures Snap() == Guest(timeout, now, 0, U64_MAX, None)
      ensures fresh(policy) && fresh(policy.deadline)
    {
      depth, outermost := 0, None;
      policy := new ExecutionPolicy(timeout, now);
    }

    ghost function Snap(): Guest
      reads this, policy.deadline
    {
      Guest(policy.timeout, policy.deadline.base, depth, policy.deadline.at, outermost)
    }

    method Begin(activation: Activation, cancelled: bool, now: nat) returns (ok: bool)
      modifies this, policy.deadline
      ensures ok <==> !Rejected(old(Snap()), activation, cancelled)
      ensures Snap() == if ok then Begins(old(Snap()), activation, now) else old(Snap())
    {
      if depth == 0 && activation.Operation? {
        var begun := policy.Begin(cancelled, now);
        if !begun {
          return false;
        }
      }
      if depth == 0 {
        outermost := Some(activation);
      }
      depth := depth + 1;
      return true;
    }

    method Finish()
      requires depth > 0
      modifies this, policy.deadline
      ensures Snap() == Finishes(old(Snap()))
    {
      depth := depth - 1;
      if depth == 0 {
        policy.deadline.Disarm();
        outermost := None;
      }
    }
  }

  class GuestRegistry {
    var active: seq<GuestId>

    constructor ()
      ensures active == []
    {
      active := [];
    }

    method Push(g: GuestId)
      modifies this
      ensures active == old(active) + [g]
    {
      active := active + [g];
    }

    // Whichever guard goes away, the innermost entry is the one removed.
    method PopInnermost()
      requires active != []
      modifies this
      ensures active == old(active)[..|old(active)| - 1]
    {
      active := active[..|active| - 1];
    }
  }

  // The two ends of a guard.  `s` is the state of the whole runtime, of which this guest's object
  // and the shared stack are the only parts that move.
  ghost predicate Shows(s: State, g: GuestId, guest: GuestActivity, registry: GuestRegistry)
    reads guest, guest.policy.deadline, registry
  {
    g in s.guests && s.guests[g] == guest.Snap() && s.active == registry.active
  }

  method OpenGuard(
    ghost s: State, g: GuestId, guest: GuestActivity, registry: GuestRegistry,
    activation: Activation, cancelled: bool, now: nat) returns (ok: bool)
    requires Shows(s, g, guest, registry)
    modifies guest, guest.policy.deadline, registry
    ensures ok <==> !Rejected(s.guests[g], activation, cancelled)
    ensures Shows(Next(s, Activate(g, activation, cancelled, now)), g, guest, registry)
  {
    ok := guest.Begin(activation, cancelled, now);
    if ok {
      registry.Push(g);
    }
  }

  method CloseGuard(ghost s: State, g: GuestId, guest: GuestActivity, registry: GuestRegistry)
    requires Shows(s, g, guest, registry) && Inv(s) && s.live[g] > 0
    modifies guest, guest.policy.deadline, registry
    ensures Balanced(s, g) && Shows(Next(s, DropGuard(g)), g, guest, registry)
  {
    DropIsBalanced(s, g);
    registry.PopInnermost();
    guest.Finish();
  }
}
