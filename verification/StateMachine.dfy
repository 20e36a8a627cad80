/** state_machine.py: the legal shipment transitions, and what every run through them satisfies. */
module StateMachine {
  datatype Status =
    | CREATED | READY_FOR_DISPATCH | DISPATCHING | DISPATCH_FAILED | DISPATCHED | PICKED_UP | IN_TRANSIT
    | OUT_FOR_DELIVERY | DELIVERED | DELIVERY_FAILED | RETURN_INITIATED | RETURNED | CANCELLED

  function AllowedTransitions(s: Status): set<Status> {
    match s
    case CREATED => {READY_FOR_DISPATCH, CANCELLED}
    case READY_FOR_DISPATCH => {DISPATCHING, CANCELLED}
    case DISPATCHING => {DISPATCHED, DISPATCH_FAILED}
    case DISPATCH_FAILED => {READY_FOR_DISPATCH, CANCELLED}
    case DISPATCHED => {PICKED_UP}
    case PICKED_UP => {IN_TRANSIT}
    case IN_TRANSIT => {OUT_FOR_DELIVERY}
    case OUT_FOR_DELIVERY => {DELIVERED, DELIVERY_FAILED}
    case DELIVERY_FAILED => {OUT_FOR_DELIVERY, RETURN_INITIATED}
    case RETURN_INITIATED => {RETURNED}
    case DELIVERED => {}
    case RETURNED => {}
    case CANCELLED => {}
  }

  predicate IsTerminal(s: Status) { AllowedTransitions(s) == {} }

  const EDITABLE_STATES: set<Status> := {CREATED, READY_FOR_DISPATCH, DISPATCH_FAILED}

  predicate CanTransition(current: Status, target: Status) {
    target in AllowedTransitions(current)
  }

  datatype Verdict = Allowed | AlreadyThere | Illegal

  function AssertTransition(current: Status, target: Status): (v: Verdict) {
    if current == target then AlreadyThere
    else if !CanTransition(current, target) then Illegal
    else Allowed
  }

  // ---------------------------------------------------------------- the table, told by its ways

  /** From a new shipment to a delivered one. */
  const DELIVERY_WAY: set<(Status, Status)> := {
    (CREATED, READY_FOR_DISPATCH), (READY_FOR_DISPATCH, DISPATCHING), (DISPATCHING, DISPATCHED),
    (DISPATCHED, PICKED_UP),
    (PICKED_UP, IN_TRANSIT), (IN_TRANSIT, OUT_FOR_DELIVERY), (OUT_FOR_DELIVERY, DELIVERED)
  }

  /** A dispatch that fails starts over; so does a delivery, or it ends in a return. */
  const FAILURES: set<(Status, Status)> := {
    (DISPATCHING, DISPATCH_FAILED), (DISPATCH_FAILED, READY_FOR_DISPATCH),
    (OUT_FOR_DELIVERY, DELIVERY_FAILED), (DELIVERY_FAILED, OUT_FOR_DELIVERY),
    (DELIVERY_FAILED, RETURN_INITIATED), (RETURN_INITIATED, RETURNED)
  }

  /** A step is legal exactly when it is on the way to delivery, deals with a failure, or cancels a shipment whose
      contents can still be edited. */
  lemma TransitionsAre(s: Status, t: Status)
    ensures CanTransition(s, t) <==>
            (s, t) in DELIVERY_WAY || (s, t) in FAILURES || (t == CANCELLED && s in EDITABLE_STATES)
  {
  }

  /** What a request to move is told. */
  lemma VerdictIs(current: Status, target: Status)
    ensures AssertTransition(current, target) ==
            if target == current then AlreadyThere else if CanTransition(current, target) then Allowed else Illegal
    ensures !CanTransition(current, current)
  {
  }

  // ---------------------------------------------------------------- runs

  /** A run of the lifecycle: it starts at CREATED and every step is legal. */
  ghost predicate LegalPath(path: seq<Status>) {
    path != [] && path[0] == CREATED && forall k :: 0 <= k < |path| - 1 ==> CanTransition(path[k], path[k + 1])
  }

  /** How far a shipment has come. Only the dispatch loop and the delivery loop stay on one rank. */
  function Rank(s: Status): nat {
    match s
    case CREATED => 0
    case READY_FOR_DISPATCH | DISPATCHING | DISPATCH_FAILED => 1
    case DISPATCHED => 2
    case PICKED_UP => 3
    case IN_TRANSIT => 4
    case OUT_FOR_DELIVERY | DELIVERY_FAILED => 5
    case RETURN_INITIATED => 6
    case DELIVERED | RETURNED | CANCELLED => 7
  }

  predicate InDispatchLoop(s: Status) { s in {READY_FOR_DISPATCH, DISPATCHING, DISPATCH_FAILED} }

  predicate InDeliveryLoop(s: Status) { s in {OUT_FOR_DELIVERY, DELIVERY_FAILED} }

  /** A legal step never falls back, and stays on its rank only inside one of the two loops. */
  lemma StepClimbs(s: Status, t: Status)
    requires CanTransition(s, t)
    ensures Rank(s) <= Rank(t)
    ensures Rank(s) == Rank(t) ==> (InDispatchLoop(s) && InDispatchLoop(t)) || (InDeliveryLoop(s) && InDeliveryLoop(t))
  {
  }

  lemma {:induction false} RunClimbs(path: seq<Status>, i: nat, j: nat)
    requires LegalPath(path) && i <= j < |path|
    ensures Rank(path[i]) <= Rank(path[j])
    ensures i < j && !InDispatchLoop(path[i]) && !InDeliveryLoop(path[i]) ==> Rank(path[i]) < Rank(path[j])
    decreases j
  {
    if i < j {
      StepClimbs(path[j - 1], path[j]);
      RunClimbs(path, i, j - 1);
    }
  }

  /** Outside the two loops every status is entered at most once, so its timestamp is written at most once. */
  lemma EnteredAtMostOnce(path: seq<Status>, i: nat, j: nat)
    requires LegalPath(path) && i < |path| && j < |path| && path[i] == path[j]
    requires !InDispatchLoop(path[i]) && !InDeliveryLoop(path[i])
    ensures i == j
  {
    if i < j {
      RunClimbs(path, i, j);
    } else if j < i {
      RunClimbs(path, j, i);
    }
  }

  /** Goods that left are never cancelled, and cancelled shipments never leave. */
  lemma NeverBothDispatchedAndCancelled(path: seq<Status>)
    requires LegalPath(path)
    ensures !(DISPATCHED in path && CANCELLED in path)
  {
    if DISPATCHED in path && CANCELLED in path {
      var d :| 0 <= d < |path| && path[d] == DISPATCHED;
      var c :| 0 <= c < |path| && path[c] == CANCELLED;
      if c < d {
        RunClimbs(path, c, d);
      } else {
        assert CanTransition(path[c - 1], path[c]);
        RunClimbs(path, d, c - 1);
      }
    }
  }

  /** A next step towards an end; an ended run stays where it is. */
  function Onward(s: Status): (t: Status)
    ensures if IsTerminal(s) then t == s else CanTransition(s, t) && Finishing(t) > Finishing(s)
  {
    match s
    case CREATED | READY_FOR_DISPATCH | DISPATCH_FAILED => CANCELLED
    case DISPATCHING => DISPATCHED
    case DISPATCHED => PICKED_UP
    case PICKED_UP => IN_TRANSIT
    case IN_TRANSIT => OUT_FOR_DELIVERY
    case OUT_FOR_DELIVERY => DELIVERED
    case DELIVERY_FAILED => RETURN_INITIATED
    case RETURN_INITIATED => RETURNED
    case DELIVERED | RETURNED | CANCELLED => s
  }

  function Finishing(s: Status): nat {
    2 * Rank(s) + (if s == DELIVERY_FAILED then 1 else 0)
  }

  lemma StepOn(path: seq<Status>, next: Status)
    requires LegalPath(path) && CanTransition(path[|path| - 1], next)
    ensures LegalPath(path + [next])
  {
  }

  /** Every run can still be completed to one that ends in a terminal status. */
  lemma {:induction false} EveryRunCanFinish(path: seq<Status>) returns (rest: seq<Status>)
    requires LegalPath(path)
    ensures LegalPath(path + rest) && IsTerminal((path + rest)[|path + rest| - 1])
    decreases 16 - Finishing(path[|path| - 1])
  {
    var last := path[|path| - 1];
    if IsTerminal(last) {
      rest := [];
      assert path + rest == path;
    } else {
      StepOn(path, Onward(last));
      var after := EveryRunCanFinish(path + [Onward(last)]);
      rest := [Onward(last)] + after;
      assert path + rest == path + [Onward(last)] + after;
    }
  }

  lemma PrefixIsLegal(path: seq<Status>, n: nat)
    requires LegalPath(path) && 0 < n <= |path|
    ensures LegalPath(path[..n])
  {
  }

  /** A run to the dock, with m failed dispatches on the way. */
  lemma {:induction false} DispatchMayFail(m: nat) returns (path: seq<Status>)
    ensures LegalPath(path) && path[|path| - 1] == DISPATCHING && multiset(path)[DISPATCH_FAILED] == m
    ensures DELIVERY_FAILED !in path
  {
    if m == 0 {
      path := [CREATED, READY_FOR_DISPATCH, DISPATCHING];
    } else {
      var before := DispatchMayFail(m - 1);
      StepOn(before, DISPATCH_FAILED);
      StepOn(before + [DISPATCH_FAILED], READY_FOR_DISPATCH);
      StepOn(before + [DISPATCH_FAILED] + [READY_FOR_DISPATCH], DISPATCHING);
      path := before + [DISPATCH_FAILED] + [READY_FOR_DISPATCH] + [DISPATCHING];
    }
  }

  lemma {:induction false} DeliveryMayFail(m: nat, n: nat) returns (path: seq<Status>)
    ensures LegalPath(path) && path[|path| - 1] == OUT_FOR_DELIVERY
    ensures multiset(path)[DISPATCH_FAILED] == m && multiset(path)[DELIVERY_FAILED] == n
  {
    if n == 0 {
      var before := DispatchMayFail(m);
      StepOn(before, DISPATCHED);
      StepOn(before + [DISPATCHED], PICKED_UP);
      StepOn(before + [DISPATCHED] + [PICKED_UP], IN_TRANSIT);
      StepOn(before + [DISPATCHED] + [PICKED_UP] + [IN_TRANSIT], OUT_FOR_DELIVERY);
      path := before + [DISPATCHED] + [PICKED_UP] + [IN_TRANSIT] + [OUT_FOR_DELIVERY];
    } else {
      var before := DeliveryMayFail(m, n - 1);
      StepOn(before, DELIVERY_FAILED);
      StepOn(before + [DELIVERY_FAILED], OUT_FOR_DELIVERY);
      path := before + [DELIVERY_FAILED] + [OUT_FOR_DELIVERY];
    }
  }

  /** Dispatch and delivery may fail any number of times, and the goods still arrive. */
  lemma AnyNumberOfTries(m: nat, n: nat) returns (path: seq<Status>)
    ensures LegalPath(path) && path[|path| - 1] == DELIVERED
    ensures multiset(path)[DISPATCH_FAILED] == m && multiset(path)[DELIVERY_FAILED] == n
  {
    var before := DeliveryMayFail(m, n);
    StepOn(before, DELIVERED);
    path := before + [DELIVERED];
  }
}
