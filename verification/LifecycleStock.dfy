/** Stock follows the shipment lifecycle: whole stories of one shipment's events, amid everything else. */
module LifecycleStock {
  import opened Common
  import opened StockTables
  import opened StockOps
  import opened StockInvariant
  import opened StockEffects
  import opened StockRuns
  import opened StockOnce
  import SM = StateMachine

  datatype Message = ShipmentCreated | StatusChanged(status: SM.Status)

  /** on_shipment_created and on_shipment_status_changed. */
  function OnMessage(db: Db, s: Id, m: Message, now: Time): (Db, Outcome)
    requires Constraints(db)
  {
    match m
    case ShipmentCreated => Confirm(db, s, now)
    case StatusChanged(status) =>
      if status == SM.DISPATCHED then Commit(db, s, now)
      else if status == SM.CANCELLED then Release(db, s, now)
      else (db, Moved(0))
  }

  /** What the lifecycle so far means for the shipment's holds. */
  function StockStatus(path: seq<SM.Status>): Status {
    if SM.DISPATCHED in path then Committed else if SM.CANCELLED in path then Released else Held
  }

  /** Hold row g is row h of the moment of creation, confirmed and in this status if it is the shipment's. */
  predicate RowFollows(h: Hold, g: Hold, s: Id, status: Status) {
    && g.item == h.item && g.shipment == h.shipment && g.quantity == h.quantity
    && (h.shipment == s ==> g.status == status && g.confirmedAt.Some?)
  }

  /** All the shipment's rows stand in one status, and it has got no new ones. */
  ghost predicate Follows(start: seq<Hold>, holds: seq<Hold>, s: Id, status: Status) {
    && |start| <= |holds|
    && (forall k {:trigger holds[k]} :: 0 <= k < |start| ==> RowFollows(start[k], holds[k], s, status))
    && (forall k {:trigger holds[k]} :: |start| <= k < |holds| ==> holds[k].shipment != s)
  }

  predicate AllHeld(holds: seq<Hold>, s: Id) {
    AllRows(holds, s, Held)
  }

  // ---------------------------------------------------------------- one message

  lemma HeldForTotal(holds: seq<Hold>, i: Id, s: Id)
    ensures Total(holds, PickedOn(i, HeldFor(s))) == Total(holds, ForShipmentIn(i, s, Held))
  {
    TotalAgrees(holds, PickedOn(i, HeldFor(s)), ForShipmentIn(i, s, Held));
  }

  /** A dispatch takes exactly what the shipment holds out of stock; it fails exactly when nothing is held or already
      committed. */
  lemma CommitMoves(db: Db, s: Id, now: Time)
    requires Inv(db)
    ensures Commit(db, s, now).1.Refused? == (!HasRow(db.holds, s, Held) && !HasRow(db.holds, s, Committed))
    ensures HasRow(db.holds, s, Held) ==>
              forall i :: i in db.items ==>
                var after := Commit(db, s, now).0;
                && i in after.items
                && after.items[i].onHand == db.items[i].onHand - Total(db.holds, ForShipmentIn(i, s, Held))
                && after.items[i].reserved == db.items[i].reserved - Total(db.holds, ForShipmentIn(i, s, Held))
    ensures !HasRow(db.holds, s, Held) ==> Commit(db, s, now).0 == db
  {
    CountPicksIff(db.holds, s);
    TouchUpToKeepsInv(db, HeldFor(s), Committing, now, |db.holds|);
    TouchAllIs(db, HeldFor(s), Committing, now);
    forall i ensures Total(db.holds, PickedOn(i, HeldFor(s))) == Total(db.holds, ForShipmentIn(i, s, Held)) {
      HeldForTotal(db.holds, i, s);
    }
  }

  /** A cancellation gives back exactly what the shipment holds, and never fails. */
  lemma ReleaseMoves(db: Db, s: Id, now: Time)
    requires Inv(db)
    ensures !Release(db, s, now).1.Refused?
    ensures forall i :: i in db.items ==>
              var after := Release(db, s, now).0;
              && i in after.items
              && after.items[i].onHand == db.items[i].onHand
              && after.items[i].reserved == db.items[i].reserved - Total(db.holds, ForShipmentIn(i, s, Held))
  {
    TouchUpToKeepsInv(db, HeldFor(s), Releasing, now, |db.holds|);
    TouchAllIs(db, HeldFor(s), Releasing, now);
    forall i ensures Total(db.holds, PickedOn(i, HeldFor(s))) == Total(db.holds, ForShipmentIn(i, s, Held)) {
      HeldForTotal(db.holds, i, s);
    }
  }

  /** The message fits rows in this status: a dispatch never meets released stock, nor a cancellation dispatched
      stock. */
  predicate Fits(m: Message, status: Status) {
    && (m == StatusChanged(SM.DISPATCHED) ==> status != Released)
    && (m == StatusChanged(SM.CANCELLED) ==> status != Committed)
  }

  function StatusAfter(m: Message, status: Status): Status {
    if m == StatusChanged(SM.DISPATCHED) then Committed else if m == StatusChanged(SM.CANCELLED) then Released
    else status
  }

  lemma FollowingRows(start: seq<Hold>, db: Db, s: Id, status: Status)
    requires Follows(start, db.holds, s, status) && !Unlisted(start, s)
    ensures HasRow(db.holds, s, status)
    ensures forall other :: other != status ==> !HasRow(db.holds, s, other)
    ensures CountPicks(db.holds, HeldFor(s)) == 0 <==> status != Held
  {
    var k :| 0 <= k < |start| && start[k].shipment == s;
    assert RowFollows(start[k], db.holds[k], s, status);
    CountPicksIff(db.holds, s);
  }

  lemma TouchFollows(start: seq<Hold>, db: Db, s: Id, status: Status, act: Act, now: Time)
    requires ItemsExist(db) && Follows(start, db.holds, s, status)
    ensures Follows(start, TouchAll(db, HeldFor(s), act, now).holds, s,
                    if act == Confirming || status != Held then status else if act == Committing then Committed
                    else Released)
  {
    TouchAllIs(db, HeldFor(s), act, now);
  }

  lemma OnMessageFollows(start: seq<Hold>, db: Db, s: Id, status: Status, m: Message, now: Time)
    requires Inv(db) && Follows(start, db.holds, s, status) && !Unlisted(start, s) && Fits(m, status)
    ensures var (after, outcome) := OnMessage(db, s, m, now);
            Inv(after) && !outcome.Refused? && Follows(start, after.holds, s, StatusAfter(m, status))
  {
    FollowingRows(start, db, s, status);
    match m
    case ShipmentCreated =>
      ApplyKeepsInv(db, DoConfirm(s, now));
      TouchFollows(start, db, s, status, Confirming, now);
    case StatusChanged(to) =>
      if to == SM.DISPATCHED {
        ApplyKeepsInv(db, DoCommit(s, now));
        CommitMoves(db, s, now);
        TouchFollows(start, db, s, status, Committing, now);
      } else if to == SM.CANCELLED {
        ApplyKeepsInv(db, DoRelease(s, now));
        ReleaseMoves(db, s, now);
        TouchFollows(start, db, s, status, Releasing, now);
      }
  }

  /** A message about one shipment leaves every other shipment's holds, and the positions they alone are on, as they
      were; and only creation, dispatch and cancellation change anything at all. */
  lemma OnMessageIsConfined(db: Db, s: Id, m: Message, now: Time, i: Id)
    requires Inv(db)
    ensures var after := OnMessage(db, s, m, now).0;
            && |after.holds| == |db.holds|
            && (forall k :: 0 <= k < |db.holds| && db.holds[k].shipment != s ==> after.holds[k] == db.holds[k])
            && (i in db.items && Total(db.holds, ForShipmentIn(i, s, Held)) == 0 ==>
                  && i in after.items && after.items[i].onHand == db.items[i].onHand
                  && after.items[i].reserved == db.items[i].reserved)
            && (m.StatusChanged? && m.status != SM.DISPATCHED && m.status != SM.CANCELLED ==> after == db)
  {
    match m
    case ShipmentCreated => ConfirmStopsExpiry(db, s, now, now);
    case StatusChanged(to) =>
      if to == SM.DISPATCHED {
        CommitMarks(db, s, now);
        CommitMoves(db, s, now);
      } else if to == SM.CANCELLED {
        ReleaseMarks(db, s, now);
        ReleaseMoves(db, s, now);
      }
  }

  // ---------------------------------------------------------------- everything else that happens meanwhile

  /** Anything but a direct commit or release of this shipment. A reserve that raced past the existence check shares a
      line with the shipment's rows. */
  ghost predicate Calm(db: Db, s: Id, op: Op) {
    && (op.DoCommit? || op.DoRelease? ==> op.shipment != s)
    && (op.DoReserveRaced? && op.req.shipment == s ==> AlreadyListed(db.holds, op.req))
  }

  lemma CalmAddsNoRows(db: Db, s: Id, op: Op)
    requires Inv(db) && Admissible(db, op) && Calm(db, s, op) && !Unlisted(db.holds, s)
    ensures var after := Apply(db, op).0.holds;
            |db.holds| <= |after| && forall k :: |db.holds| <= k < |after| ==> after[k].shipment != s
  {
    ApplyRows(db, op);
    if Apply(db, op).1.Created? {
      ExistingRowsIff(db.holds, op.req.shipment);
      ReserveDecides(db, op.req, op.cat, op.window, op.now);
      CreatedRows(db, op.req, op.cat, op.window, op.now);
    } else {
      NotCreatedKeepsRows(db, op);
    }
  }

  /** No other transaction touches a confirmed row of the shipment. */
  lemma CalmKeepsRow(op: Op, h: Hold, g: Hold, s: Id)
    requires RowStep(op, h, g) && (op.DoCommit? || op.DoRelease? ==> op.shipment != s)
    ensures g.item == h.item && g.shipment == h.shipment && g.quantity == h.quantity
    ensures h.shipment == s && h.confirmedAt.Some? ==> g == h
  {
  }

  lemma CalmFollows(start: seq<Hold>, db: Db, s: Id, status: Status, op: Op)
    requires Inv(db) && Admissible(db, op) && Calm(db, s, op)
    requires Follows(start, db.holds, s, status) && !Unlisted(start, s)
    ensures Inv(Apply(db, op).0) && Follows(start, Apply(db, op).0.holds, s, status)
  {
    FollowingRows(start, db, s, status);
    ApplyKeepsInv(db, op);
    ApplyRows(db, op);
    CalmAddsNoRows(db, s, op);
    forall k | 0 <= k < |db.holds|
      ensures var h, g := db.holds[k], Apply(db, op).0.holds[k];
              g.item == h.item && g.shipment == h.shipment && g.quantity == h.quantity
              && (h.shipment == s && h.confirmedAt.Some? ==> g == h)
    {
      CalmKeepsRow(op, db.holds[k], Apply(db, op).0.holds[k], s);
    }
    KeptRowsFollow(start, db.holds, Apply(db, op).0.holds, s, status);
  }

  lemma KeptRowsFollow(start: seq<Hold>, holds: seq<Hold>, after: seq<Hold>, s: Id, status: Status)
    requires Follows(start, holds, s, status) && |holds| <= |after|
    requires forall k :: |holds| <= k < |after| ==> after[k].shipment != s
    requires forall k :: 0 <= k < |holds| ==>
               && after[k].item == holds[k].item && after[k].shipment == holds[k].shipment
               && after[k].quantity == holds[k].quantity
               && (holds[k].shipment == s && holds[k].confirmedAt.Some? ==> after[k] == holds[k])
    ensures Follows(start, after, s, status)
  {
    forall k | 0 <= k < |start| ensures RowFollows(start[k], after[k], s, status) {
      assert RowFollows(start[k], holds[k], s, status);
    }
  }

  // ---------------------------------------------------------------- stories

  /** What may come next: the shipment's next status event, any of its earlier events again, or another transaction. */
  datatype Event =
    | Next(status: SM.Status, now: Time)
    | Again(message: Message, now: Time)
    | Other(op: Op)

  ghost predicate Allowed(db: Db, path: seq<SM.Status>, s: Id, e: Event)
    requires path != []
  {
    match e
    case Next(status, _) => SM.CanTransition(path[|path| - 1], status)
    case Again(m, _) => m.ShipmentCreated? || m.status in path
    case Other(op) => Admissible(db, op) && Calm(db, s, op)
  }

  function MessageOf(e: Event): Message
    requires !e.Other?
  {
    if e.Next? then StatusChanged(e.status) else e.message
  }

  function Step(db: Db, s: Id, e: Event): (Db, Outcome)
    requires Constraints(db) && (e.Other? ==> Admissible(db, e.op))
  {
    if e.Other? then Apply(db, e.op) else OnMessage(db, s, MessageOf(e), e.now)
  }

  function PathAfter(path: seq<SM.Status>, e: Event): seq<SM.Status> {
    if e.Next? then path + [e.status] else path
  }

  lemma EventFits(path: seq<SM.Status>, e: Event)
    requires SM.LegalPath(path) && !e.Other?
    requires if e.Next? then SM.CanTransition(path[|path| - 1], e.status)
             else e.message.ShipmentCreated? || e.message.status in path
    ensures SM.LegalPath(PathAfter(path, e))
    ensures Fits(MessageOf(e), StockStatus(path))
            && StatusAfter(MessageOf(e), StockStatus(path)) == StockStatus(PathAfter(path, e))
  {
    var next := PathAfter(path, e);
    assert SM.LegalPath(next);
    SM.NeverBothDispatchedAndCancelled(next);
    assert forall x :: x in next <==> x in path || (e.Next? && x == e.status);
  }

  lemma StepFollows(start: seq<Hold>, db: Db, path: seq<SM.Status>, s: Id, e: Event)
    requires Inv(db) && SM.LegalPath(path) && Allowed(db, path, s, e)
    requires Follows(start, db.holds, s, StockStatus(path)) && !Unlisted(start, s)
    ensures var (after, outcome) := Step(db, s, e);
            && Inv(after) && SM.LegalPath(PathAfter(path, e))
            && Follows(start, after.holds, s, StockStatus(PathAfter(path, e)))
            && (!e.Other? ==> !outcome.Refused?)
  {
    if e.Other? {
      CalmFollows(start, db, s, StockStatus(path), e.op);
    } else {
      EventFits(path, e);
      OnMessageFollows(start, db, s, StockStatus(path), MessageOf(e), e.now);
    }
  }

  ghost predicate AllowedRun(db: Db, path: seq<SM.Status>, s: Id, events: seq<Event>)
    requires path != []
    decreases |events|
  {
    events == [] ||
    (Constraints(db) && Allowed(db, path, s, events[0])
     && AllowedRun(Step(db, s, events[0]).0, PathAfter(path, events[0]), s, events[1..]))
  }

  /** None of the shipment's own events is refused. */
  ghost predicate HandlersSucceed(db: Db, path: seq<SM.Status>, s: Id, events: seq<Event>)
    requires path != [] && AllowedRun(db, path, s, events)
    decreases |events|
  {
    events == [] ||
    (&& (events[0].Other? || !Step(db, s, events[0]).1.Refused?)
     && HandlersSucceed(Step(db, s, events[0]).0, PathAfter(path, events[0]), s, events[1..]))
  }

  ghost function FinalDb(db: Db, path: seq<SM.Status>, s: Id, events: seq<Event>): Db
    requires path != [] && AllowedRun(db, path, s, events)
    decreases |events|
  {
    if events == [] then db else FinalDb(Step(db, s, events[0]).0, PathAfter(path, events[0]), s, events[1..])
  }

  function FinalPath(path: seq<SM.Status>, events: seq<Event>): seq<SM.Status>
    decreases |events|
  {
    if events == [] then path else FinalPath(PathAfter(path, events[0]), events[1..])
  }

  lemma {:induction false} RunFollows(start: seq<Hold>, db: Db, path: seq<SM.Status>, s: Id, events: seq<Event>)
    requires Inv(db) && SM.LegalPath(path) && AllowedRun(db, path, s, events)
    requires Follows(start, db.holds, s, StockStatus(path)) && !Unlisted(start, s)
    ensures var end := FinalPath(path, events);
            && HandlersSucceed(db, path, s, events) && Inv(FinalDb(db, path, s, events)) && SM.LegalPath(end)
            && Follows(start, FinalDb(db, path, s, events).holds, s, StockStatus(end))
    decreases |events|
  {
    if events != [] {
      StepFollows(start, db, path, s, events[0]);
      RunFollows(start, Step(db, s, events[0]).0, PathAfter(path, events[0]), s, events[1..]);
    }
  }

  /** The shipment's rows weigh in the ledger what they weighed at creation, once they are committed. */
  lemma {:induction false} FollowingTotal(start: seq<Hold>, holds: seq<Hold>, s: Id, status: Status, i: Id)
    requires Follows(start, holds, s, status) && AllHeld(start, s)
    ensures Total(holds, ForShipmentIn(i, s, Committed)) ==
            if status == Committed then Total(start, ForShipmentIn(i, s, Held)) else 0
    decreases |holds|
  {
    if holds != [] {
      var n := |holds| - 1;
      if |start| == |holds| {
        assert RowFollows(start[n], holds[n], s, status);
        FollowingTotal(start[..n], holds[..n], s, status, i);
      } else {
        FollowingTotal(start, holds[..n], s, status, i);
      }
    }
  }

  lemma ConfirmStarts(db: Db, s: Id, now: Time)
    requires Inv(db) && AllHeld(db.holds, s)
    ensures Inv(Confirm(db, s, now).0) && Follows(db.holds, Confirm(db, s, now).0.holds, s, Held)
  {
    ApplyKeepsInv(db, DoConfirm(s, now));
    TouchAllIs(db, HeldFor(s), Confirming, now);
  }

  /** Stock follows the lifecycle. Once shipment.created has confirmed a shipment's holds while all were still HELD,
      then whatever else happens, sweeps, adjustments, rival reserves and redeliveries included: no event of the
      shipment is ever refused, all its holds stand together in the status its lifecycle calls for, and the stock
      dispatched for it is exactly what it held or nothing. */
  lemma StockFollowsLifecycle(db: Db, s: Id, now: Time, events: seq<Event>, i: Id)
    requires Inv(db) && !Unlisted(db.holds, s) && AllHeld(db.holds, s)
    requires AllowedRun(Confirm(db, s, now).0, [SM.CREATED], s, events)
    ensures var confirmed := Confirm(db, s, now).0;
            var path := FinalPath([SM.CREATED], events);
            var after := FinalDb(confirmed, [SM.CREATED], s, events);
            && SM.LegalPath(path)
            && HandlersSucceed(confirmed, [SM.CREATED], s, events)
            && Follows(db.holds, after.holds, s, StockStatus(path))
            && Balance(after.ledger, DispatchedFor(i, s)) ==
               if SM.DISPATCHED in path then -Total(db.holds, ForShipmentIn(i, s, Held)) else 0
  {
    ConfirmStarts(db, s, now);
    var confirmed := Confirm(db, s, now).0;
    RunFollows(db.holds, confirmed, [SM.CREATED], s, events);
    var after := FinalDb(confirmed, [SM.CREATED], s, events);
    FollowingTotal(db.holds, after.holds, s, StockStatus(FinalPath([SM.CREATED], events)), i);
    assert DispatchBookedFor(after, i, s);
  }

  /** Why the holds must all be HELD when they are confirmed: expiry frees one position at a time, confirm does not
      bring a freed line back, and a dispatch takes what is left. It takes every line exactly when none had been
      freed. */
  lemma DispatchTakesEveryLineIff(db: Db, s: Id, now: Time, later: Time)
    requires Inv(db)
    ensures Inv(Confirm(db, s, now).0)
    ensures var after := Commit(Confirm(db, s, now).0, s, later).0;
            (forall k :: 0 <= k < |after.holds| && after.holds[k].shipment == s ==> after.holds[k].status == Committed)
            <==> !HasRow(db.holds, s, Released)
  {
    var confirmed := Confirm(db, s, now).0;
    ApplyKeepsInv(db, DoConfirm(s, now));
    TouchAllIs(db, HeldFor(s), Confirming, now);
    CommittedRows(confirmed, s, later);
    assert HasRow(confirmed.holds, s, Released) == HasRow(db.holds, s, Released) by {
      assert |confirmed.holds| == |db.holds|;
      assert forall k :: 0 <= k < |db.holds| ==>
               confirmed.holds[k].status == db.holds[k].status && confirmed.holds[k].shipment == db.holds[k].shipment;
    }
  }

  lemma CommittedRows(db: Db, s: Id, now: Time)
    requires Inv(db)
    ensures var after := Commit(db, s, now).0;
            (forall k :: 0 <= k < |after.holds| && after.holds[k].shipment == s ==> after.holds[k].status == Committed)
            <==> !HasRow(db.holds, s, Released)
  {
    var after := Commit(db, s, now).0;
    CommitMoves(db, s, now);
    CountPicksIff(db.holds, s);
    TouchAllIs(db, HeldFor(s), Committing, now);
    assert |after.holds| == |db.holds|;
    assert forall k :: 0 <= k < |db.holds| ==>
             after.holds[k].shipment == db.holds[k].shipment
             && after.holds[k].status ==
                if db.holds[k].shipment == s && db.holds[k].status == Held then Committed else db.holds[k].status;
    if HasRow(db.holds, s, Released) {
      var k :| 0 <= k < |db.holds| && db.holds[k].shipment == s && db.holds[k].status == Released;
      assert after.holds[k].status == Released;
    }
  }
}
