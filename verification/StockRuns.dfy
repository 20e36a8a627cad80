/** Whole runs of inventory transactions, in any order and interleaving of the pods that issue them. */
module StockRuns {
  import opened Common
  import opened StockTables
  import opened StockOps
  import opened StockInvariant
  import opened StockEffects

  // ---------------------------------------------------------------- one step, seen by a hold row

  /** A confirmation is kept; the first one ends the hold's expiry. */
  function ConfirmedRow(h: Hold, now: Time): Hold {
    if h.confirmedAt.Some? then h else h.(confirmedAt := Some(now), expiresAt := None)
  }

  /** The only ways a transaction may treat an existing hold row. */
  ghost predicate RowStep(op: Op, h: Hold, g: Hold) {
    || g == h
    || (op.DoConfirm? && h.shipment == op.shipment && h.status == Held && g == ConfirmedRow(h, op.now))
    || (op.DoCommit? && h.shipment == op.shipment && h.status == Held
        && g == h.(status := Committed, committedAt := Some(op.now)))
    || (op.DoRelease? && h.shipment == op.shipment && h.status == Held
        && g == h.(status := Released, releasedAt := Some(op.now)))
    || ((op.DoSweep? || op.DoReserve? || op.DoReserveRaced?) && Lapsed(h, op.now)
        && g == h.(status := Released, releasedAt := Some(op.now)))
  }

  ghost predicate RowsStep(op: Op, before: seq<Hold>, after: seq<Hold>) {
    |before| <= |after| && forall k :: 0 <= k < |before| ==> RowStep(op, before[k], after[k])
  }

  lemma FreedRowsStep(db: Db, op: Op)
    requires Inv(db) && (op.DoReserve? || op.DoReserveRaced?)
    ensures |Freed(db, op.req, op.now).holds| == |db.holds| && RowsStep(op, db.holds, Freed(db, op.req, op.now).holds)
  {
    TouchUpToRows(db, LapsedOn(LocatedFor(db, op.req).Values, op.now), Releasing, op.now, |db.holds|);
  }

  lemma ReserveRows(db: Db, op: Op)
    requires Inv(db) && (op.DoReserve? || op.DoReserveRaced?) && ValidRequest(op.req)
    ensures RowsStep(op, db.holds, ReserveLocked(db, op.req, op.cat, op.window, op.now).0.holds)
  {
    if ReserveLocked(db, op.req, op.cat, op.window, op.now).1.Created? {
      CreatedShape(db, op.req, op.cat, op.window, op.now);
      FreedRowsStep(db, op);
    } else {
      ReserveLockedIs(db, op.req, op.cat, op.window, op.now);
    }
  }

  lemma ApplyRows(db: Db, op: Op)
    requires Inv(db) && Admissible(db, op)
    ensures RowsStep(op, db.holds, Apply(db, op).0.holds)
  {
    match op
    case DoReserve(req, cat, window, now) => ReserveRows(db, op);
    case DoReserveRaced(req, cat, window, now) => ReserveRows(db, op);
    case DoConfirm(s, now) => TouchAllIs(db, HeldFor(s), Confirming, now);
    case DoCommit(s, now) => TouchAllIs(db, HeldFor(s), Committing, now);
    case DoRelease(s, now) => TouchAllIs(db, HeldFor(s), Releasing, now);
    case DoSweep(scope, now) => TouchAllIs(db, LapsedOn(SweepPositions(db, scope, now), now), Releasing, now);
    case _ =>
  }

  // ---------------------------------------------------------------- runs

  ghost predicate AdmissibleRun(db: Db, ops: seq<Op>)
    requires Inv(db)
    decreases |ops|
  {
    ops == [] ||
    (Admissible(db, ops[0]) && (ApplyKeepsInv(db, ops[0]); AdmissibleRun(Apply(db, ops[0]).0, ops[1..])))
  }

  ghost function Run(db: Db, ops: seq<Op>): (r: Db)
    requires Inv(db) && AdmissibleRun(db, ops)
    ensures Inv(r)
    decreases |ops|
  {
    if ops == [] then db else ApplyKeepsInv(db, ops[0]); Run(Apply(db, ops[0]).0, ops[1..])
  }

  /** In every reachable state: no position is oversold, each reservation is what is held, stock is what the ledger
      says. */
  lemma EveryRunKeepsTheBooks(ops: seq<Op>)
    requires AdmissibleRun(EMPTY, ops)
    ensures var db := Run(EMPTY, ops);
            && (forall i :: i in db.items ==>
                  && 0 <= db.items[i].reserved <= db.items[i].onHand
                  && db.items[i].reserved == Total(db.holds, InStatus(i, Held))
                  && db.items[i].onHand == Balance(db.ledger, OnItem(i)))
            && (forall k :: 0 <= k < |db.ledger| ==>
                  db.ledger[k].resulting == Balance(db.ledger[..k + 1], OnItem(db.ledger[k].item)))
            && (forall i, s ::
                  Balance(db.ledger, DispatchedFor(i, s)) == -Total(db.holds, ForShipmentIn(i, s, Committed)))
  {
    var db := Run(EMPTY, ops);
    forall i | i in db.items
      ensures db.items[i].reserved == Total(db.holds, InStatus(i, Held))
              && db.items[i].onHand == Balance(db.ledger, OnItem(i))
    {
      assert PositionBooked(db, i);
    }
    forall k | 0 <= k < |db.ledger|
      ensures db.ledger[k].resulting == Balance(db.ledger[..k + 1], OnItem(db.ledger[k].item))
    {
      RunningSumAt(db.ledger, k);
    }
    forall i, s ensures Balance(db.ledger, DispatchedFor(i, s)) == -Total(db.holds, ForShipmentIn(i, s, Committed)) {
      assert DispatchBookedFor(db, i, s);
    }
  }

  // ---------------------------------------------------------------- conservation of holds

  /** What an accepted reserve granted on position i; nothing else grants anything. */
  ghost function Granted(db: Db, op: Op, i: Id): int
    requires Constraints(db) && Admissible(db, op)
  {
    if (op.DoReserve? || op.DoReserveRaced?) && Apply(db, op).1.Created?
    then Asked(db.items, op.req.warehouse, op.req.lines, i) else 0
  }

  ghost function GrantedInRun(db: Db, ops: seq<Op>, i: Id): int
    requires Inv(db) && AdmissibleRun(db, ops)
    decreases |ops|
  {
    if ops == [] then 0
    else ApplyKeepsInv(db, ops[0]); Granted(db, ops[0], i) + GrantedInRun(Apply(db, ops[0]).0, ops[1..], i)
  }

  /** Rows whose item and quantity stay weigh the same in the all-status sum. */
  lemma {:induction false} TotalKept(a: seq<Hold>, b: seq<Hold>, i: Id)
    requires |a| == |b| && forall k :: 0 <= k < |a| ==> a[k].item == b[k].item && a[k].quantity == b[k].quantity
    ensures Total(a, AnyStatus(i)) == Total(b, AnyStatus(i))
  {
    if a != [] {
      TotalKept(a[..|a| - 1], b[..|b| - 1], i);
    }
  }

  /** A line lands on the warehouse's position for its SKU and on no other. */
  lemma LandsOn(db: Db, req: Request, at: map<Id, Id>, m: nat, i: Id)
    requires m < |req.lines| && UniquePositions(db.items) && LocatedAt(db, req, at)
    ensures at[req.lines[m].sku] == i <==>
            i in db.items && db.items[i].warehouse == req.warehouse && db.items[i].sku == req.lines[m].sku
  {
    assert IsPosition(db.items, req.warehouse, req.lines[m].sku, at[req.lines[m].sku]);
  }

  /** What a request asks of position i. */
  ghost function Asked(items: map<Id, Item>, warehouse: Id, lines: seq<Line>, i: Id): int {
    if i in items && items[i].warehouse == warehouse then LineTotal(lines, items[i].sku) else 0
  }

  lemma {:induction false} NewRowsTotal(db: Db, req: Request, at: map<Id, Id>, expiresAt: Time, n: nat, i: Id)
    requires n <= |req.lines| && UniquePositions(db.items) && LocatedAt(db, req, at)
    ensures Total(NewRows(req, at, expiresAt, n), AnyStatus(i)) == Asked(db.items, req.warehouse, req.lines[..n], i)
  {
    if n > 0 {
      NewRowsTotal(db, req, at, expiresAt, n - 1, i);
      assert req.lines[..n][..n - 1] == req.lines[..n - 1];
      LandsOn(db, req, at, n - 1, i);
      TotalSnoc(NewRows(req, at, expiresAt, n - 1), NewHold(req, n - 1, at[req.lines[n - 1].sku], expiresAt),
                AnyStatus(i));
    }
  }

  lemma {:induction false} TotalConcat(a: seq<Hold>, b: seq<Hold>, f: Filter)
    ensures Total(a + b, f) == Total(a, f) + Total(b, f)
  {
    if b == [] {
      assert a + b == a;
    } else {
      var n := |b| - 1;
      TotalConcat(a, b[..n], f);
      assert a + b == (a + b[..n]) + [b[n]];
      TotalSnoc(a + b[..n], b[n], f);
    }
  }

  lemma FreedTotal(db: Db, req: Request, now: Time, i: Id)
    requires Inv(db)
    ensures Total(Freed(db, req, now).holds, AnyStatus(i)) == Total(db.holds, AnyStatus(i))
    ensures Asked(Freed(db, req, now).items, req.warehouse, req.lines, i) ==
              Asked(db.items, req.warehouse, req.lines, i)
  {
    var pick := LapsedOn(LocatedFor(db, req).Values, now);
    TouchUpToRows(db, pick, Releasing, now, |db.holds|);
    TouchKeepsPlaces(db, pick, Releasing, now, |db.holds|);
    TotalKept(db.holds, Freed(db, req, now).holds, i);
  }

  lemma AddedTotal(freed: Db, req: Request, at: map<Id, Id>, expiresAt: Time, i: Id)
    requires UniquePositions(freed.items) && LocatedAt(freed, req, at)
    ensures Total(NewRows(req, at, expiresAt, |req.lines|), AnyStatus(i)) ==
            Asked(freed.items, req.warehouse, req.lines, i)
  {
    NewRowsTotal(freed, req, at, expiresAt, |req.lines|, i);
    assert req.lines[..|req.lines|] == req.lines;
  }

  /** An accepted reserve appends rows that weigh what it asked for. */
  lemma CreatedParts(db: Db, req: Request, cat: Catalog, window: int, now: Time, i: Id)
    returns (kept: seq<Hold>, added: seq<Hold>)
    requires Inv(db) && ValidRequest(req) && ReserveLocked(db, req, cat, window, now).1.Created?
    ensures ReserveLocked(db, req, cat, window, now).0.holds == kept + added
    ensures Total(kept, AnyStatus(i)) == Total(db.holds, AnyStatus(i))
    ensures Total(added, AnyStatus(i)) == Asked(db.items, req.warehouse, req.lines, i)
  {
    var freed, at := Freed(db, req, now), LocatedFor(db, req);
    CreatedShape(db, req, cat, window, now);
    FreedPositions(db, req, now);
    FreedTotal(db, req, now, i);
    kept, added := freed.holds, NewRows(req, at, now + window, |req.lines|);
    AddedTotal(freed, req, at, now + window, i);
  }

  lemma CreatedTotal(db: Db, req: Request, cat: Catalog, window: int, now: Time, i: Id)
    requires Inv(db) && ValidRequest(req) && ReserveLocked(db, req, cat, window, now).1.Created?
    ensures Total(ReserveLocked(db, req, cat, window, now).0.holds, AnyStatus(i)) ==
            Total(db.holds, AnyStatus(i)) + Asked(db.items, req.warehouse, req.lines, i)
  {
    var kept, added := CreatedParts(db, req, cat, window, now, i);
    TotalConcat(kept, added, AnyStatus(i));
  }

  lemma ApplyGrants(db: Db, op: Op, i: Id)
    requires Inv(db) && Admissible(db, op)
    ensures Total(Apply(db, op).0.holds, AnyStatus(i)) == Total(db.holds, AnyStatus(i)) + Granted(db, op, i)
  {
    var after := Apply(db, op).0;
    if Apply(db, op).1.Created? {
      CreatedTotal(db, op.req, op.cat, op.window, op.now, i);
    } else {
      ApplyRows(db, op);
      if op.DoReserve? || op.DoReserveRaced? {
        ReserveLockedIs(db, op.req, op.cat, op.window, op.now);
      }
      assert |after.holds| == |db.holds|;
      TotalKept(db.holds, after.holds, i);
    }
  }

  lemma {:induction false} AnyStatusSplits(holds: seq<Hold>, i: Id)
    ensures Total(holds, AnyStatus(i)) ==
            Total(holds, InStatus(i, Held)) + Total(holds, InStatus(i, Committed)) + Total(holds, InStatus(i, Released))
  {
    if holds != [] {
      AnyStatusSplits(holds[..|holds| - 1], i);
    }
  }

  lemma {:induction false} RunGrants(db: Db, ops: seq<Op>, i: Id)
    requires Inv(db) && AdmissibleRun(db, ops)
    ensures Total(Run(db, ops).holds, AnyStatus(i)) == Total(db.holds, AnyStatus(i)) + GrantedInRun(db, ops, i)
    decreases |ops|
  {
    if ops != [] {
      ApplyKeepsInv(db, ops[0]);
      ApplyGrants(db, ops[0], i);
      RunGrants(Apply(db, ops[0]).0, ops[1..], i);
    }
  }

  /** Over every run, all quantity ever reserved on a position is now held, committed or released,
      and what was committed is exactly what the dispatch rows took out of stock. */
  lemma HoldsAreConserved(ops: seq<Op>, i: Id)
    requires AdmissibleRun(EMPTY, ops)
    ensures var db := Run(EMPTY, ops);
            && GrantedInRun(EMPTY, ops, i) ==
               Total(db.holds, InStatus(i, Held)) + Total(db.holds, InStatus(i, Committed))
               + Total(db.holds, InStatus(i, Released))
            && Total(db.holds, InStatus(i, Committed)) == -Balance(db.ledger, DispatchedOn(i))
  {
    RunGrants(EMPTY, ops, i);
    AnyStatusSplits(Run(EMPTY, ops).holds, i);
    assert DispatchBookedFor(Run(EMPTY, ops), i, 0);
  }

  /** What an accepted opening or correction brings onto a position. */
  function Brought(db: Db, op: Op, i: Id): int
    requires Constraints(db) && Admissible(db, op)
  {
    match op
    case DoOpen(position, _, _, onHand, _, _) => if position == i && Apply(db, op).1.Opened? then onHand else 0
    case DoAdjust(position, _, delta) => if position == i && Apply(db, op).1.Adjusted? then delta else 0
    case _ => 0
  }

  ghost function BroughtInRun(db: Db, ops: seq<Op>, i: Id): int
    requires Inv(db) && AdmissibleRun(db, ops)
    decreases |ops|
  {
    if ops == [] then 0
    else ApplyKeepsInv(db, ops[0]); Brought(db, ops[0], i) + BroughtInRun(Apply(db, ops[0]).0, ops[1..], i)
  }

  function OnHandOf(db: Db, i: Id): int {
    if i in db.items then db.items[i].onHand else 0
  }

  /** The ledger apart from what it dispatched for shipments. */
  function BroughtByLedger(ledger: seq<Movement>, i: Id): int {
    Balance(ledger, OnItem(i)) - Balance(ledger, DispatchedOn(i))
  }

  lemma StockIsBalance(db: Db, i: Id)
    requires Inv(db)
    ensures OnHandOf(db, i) + Total(db.holds, InStatus(i, Committed)) == BroughtByLedger(db.ledger, i)
  {
    assert DispatchBookedFor(db, i, 0);
    if i in db.items {
      assert PositionBooked(db, i);
    } else {
      NoRowsNoBalance(db.ledger, i);
    }
  }

  /** A dispatch row counts on both sides. */
  lemma DispatchBringsNothing(db: Db, k: nat, now: Time, i: Id)
    requires k < |db.holds| && db.holds[k].item in db.items
    ensures BroughtByLedger(Touch(db, Committing, k, now).ledger, i) == BroughtByLedger(db.ledger, i)
  {
    var m := Touch(db, Committing, k, now).ledger[|db.ledger|];
    BalanceSnoc(db.ledger, m, OnItem(i));
    BalanceSnoc(db.ledger, m, DispatchedOn(i));
  }

  lemma {:induction false} CommitBringsNothing(db: Db, pick: Pick, now: Time, bound: nat, i: Id)
    requires ItemsExist(db) && bound <= |db.holds|
    ensures BroughtByLedger(TouchUpTo(db, pick, Committing, now, bound).ledger, i) == BroughtByLedger(db.ledger, i)
  {
    if bound > 0 {
      CommitBringsNothing(db, pick, now, bound - 1, i);
      DispatchBringsNothing(TouchUpTo(db, pick, Committing, now, bound - 1), bound - 1, now, i);
    }
  }

  lemma OnlyTheseBring(db: Db, op: Op, i: Id)
    requires Inv(db) && Admissible(db, op)
    ensures BroughtByLedger(Apply(db, op).0.ledger, i) == BroughtByLedger(db.ledger, i) + Brought(db, op, i)
  {
    match op
    case DoReserve(req, cat, window, now) => ReserveAppends(db, req, cat, window, now);
    case DoReserveRaced(req, cat, window, now) => ReserveAppends(db, req, cat, window, now);
    case DoConfirm(s, now) => TouchAllIs(db, HeldFor(s), Confirming, now);
    case DoCommit(s, now) => CommitBringsNothing(db, HeldFor(s), now, |db.holds|, i);
    case DoRelease(s, now) => TouchAllIs(db, HeldFor(s), Releasing, now);
    case DoSweep(scope, now) => TouchAllIs(db, LapsedOn(SweepPositions(db, scope, now), now), Releasing, now);
    case DoAdjust(position, kind, delta) => AdjustBrings(db, position, kind, delta, i);
    case DoOpen(position, w, sku, onHand, cat, known) => OpenBrings(db, position, w, sku, onHand, cat, known, i);
  }

  lemma EntryBrings(ledger: seq<Movement>, m: Movement, i: Id)
    requires !m.reference.ForShipment?
    ensures BroughtByLedger(ledger + [m], i) == BroughtByLedger(ledger, i) + if m.item == i then m.delta else 0
  {
    BalanceSnoc(ledger, m, OnItem(i));
    BalanceSnoc(ledger, m, DispatchedOn(i));
  }

  lemma AdjustBrings(db: Db, position: Id, kind: MovementKind, delta: int, i: Id)
    requires Constraints(db) && delta != 0
    ensures var (after, outcome) := Adjust(db, position, kind, delta);
            BroughtByLedger(after.ledger, i) ==
            BroughtByLedger(db.ledger, i) + if position == i && outcome.Adjusted? then delta else 0
  {
    var (after, outcome) := Adjust(db, position, kind, delta);
    if outcome.Adjusted? {
      AdjustMoves(db, position, kind, delta);
      EntryBrings(db.ledger, after.ledger[|db.ledger|], i);
    } else {
      assert after == db;
    }
  }

  lemma OpenBrings(db: Db, position: Id, warehouse: Id, sku: Id, onHand: int, cat: Catalog, known: set<Id>, i: Id)
    requires Constraints(db) && position !in db.items && onHand >= 0
    ensures var (after, outcome) := OpenPosition(db, position, warehouse, sku, onHand, cat, known);
            BroughtByLedger(after.ledger, i) ==
            BroughtByLedger(db.ledger, i) + if position == i && outcome.Opened? then onHand else 0
  {
    var (after, outcome) := OpenPosition(db, position, warehouse, sku, onHand, cat, known);
    if outcome.Opened? {
      OpenAdds(db, position, warehouse, sku, onHand, cat, known);
      OpeningBrings(db.ledger, after.ledger, position, onHand, i);
    } else {
      OpenDecides(db, position, warehouse, sku, onHand, cat, known);
    }
  }

  lemma OpeningBrings(before: seq<Movement>, after: seq<Movement>, position: Id, onHand: int, i: Id)
    requires before <= after && |after| == |before| + if onHand == 0 then 0 else 1
    requires onHand != 0 ==> var m := after[|before|]; m.item == position && m.delta == onHand && m.reference == Opening
    ensures BroughtByLedger(after, i) == BroughtByLedger(before, i) + if position == i then onHand else 0
  {
    if onHand != 0 {
      assert after == before + [after[|before|]];
      EntryBrings(before, after[|before|], i);
    } else {
      assert after == before;
    }
  }

  lemma ApplyMovesStock(db: Db, op: Op, i: Id)
    requires Inv(db) && Admissible(db, op)
    ensures var after := Apply(db, op).0;
            OnHandOf(after, i) + Total(after.holds, InStatus(i, Committed)) ==
            OnHandOf(db, i) + Total(db.holds, InStatus(i, Committed)) + Brought(db, op, i)
  {
    ApplyKeepsInv(db, op);
    StockIsBalance(db, i);
    StockIsBalance(Apply(db, op).0, i);
    OnlyTheseBring(db, op, i);
  }

  lemma {:induction false} RunMovesStock(db: Db, ops: seq<Op>, i: Id)
    requires Inv(db) && AdmissibleRun(db, ops)
    ensures var after := Run(db, ops);
            OnHandOf(after, i) + Total(after.holds, InStatus(i, Committed)) ==
            OnHandOf(db, i) + Total(db.holds, InStatus(i, Committed)) + BroughtInRun(db, ops, i)
    decreases |ops|
  {
    if ops != [] {
      ApplyKeepsInv(db, ops[0]);
      ApplyMovesStock(db, ops[0], i);
      RunMovesStock(Apply(db, ops[0]).0, ops[1..], i);
    }
  }

  /** Over every run a position has on hand what it was opened with, plus all accepted corrections, minus what was
      committed. */
  lemma StockIsAccountedFor(ops: seq<Op>, i: Id)
    requires AdmissibleRun(EMPTY, ops) && i in Run(EMPTY, ops).items
    ensures var db := Run(EMPTY, ops);
            db.items[i].onHand == BroughtInRun(EMPTY, ops, i) - Total(db.holds, InStatus(i, Committed))
  {
    RunMovesStock(EMPTY, ops, i);
  }

  /** Rows are never removed or rewritten into another hold, and a hold that left HELD is final. */
  ghost predicate RowsFinal(before: seq<Hold>, after: seq<Hold>) {
    && |before| <= |after|
    && forall k :: 0 <= k < |before| ==>
         && after[k].item == before[k].item && after[k].shipment == before[k].shipment
         && after[k].warehouse == before[k].warehouse && after[k].sku == before[k].sku
         && after[k].quantity == before[k].quantity
         && (before[k].confirmedAt.Some? ==> after[k].confirmedAt == before[k].confirmedAt)
         && (before[k].status != Held ==> after[k] == before[k])
  }

  lemma {:induction false} StatusesOnlyLeaveHeld(db: Db, ops: seq<Op>)
    requires Inv(db) && AdmissibleRun(db, ops)
    ensures RowsFinal(db.holds, Run(db, ops).holds)
    decreases |ops|
  {
    if ops != [] {
      ApplyKeepsInv(db, ops[0]);
      ApplyRows(db, ops[0]);
      StatusesOnlyLeaveHeld(Apply(db, ops[0]).0, ops[1..]);
    }
  }

  /** The ledger is append-only: no transaction changes or removes a row of it. */
  lemma ApplyAppends(db: Db, op: Op)
    requires Inv(db) && Admissible(db, op)
    ensures db.ledger <= Apply(db, op).0.ledger
  {
    match op
    case DoReserve(req, cat, window, now) => ReserveAppends(db, req, cat, window, now);
    case DoReserveRaced(req, cat, window, now) => ReserveAppends(db, req, cat, window, now);
    case DoConfirm(s, now) => TouchUpToLedger(db, HeldFor(s), Confirming, now, |db.holds|);
    case DoCommit(s, now) => TouchUpToLedger(db, HeldFor(s), Committing, now, |db.holds|);
    case DoRelease(s, now) => TouchUpToLedger(db, HeldFor(s), Releasing, now, |db.holds|);
    case DoSweep(scope, now) => TouchUpToLedger(db, LapsedOn(SweepPositions(db, scope, now), now), Releasing, now,
                                                |db.holds|);
    case _ =>
  }

  lemma ReserveAppends(db: Db, req: Request, cat: Catalog, window: int, now: Time)
    requires Inv(db) && ValidRequest(req)
    ensures ReserveLocked(db, req, cat, window, now).0.ledger == db.ledger
  {
    ReserveLockedIs(db, req, cat, window, now);
    TouchUpToLedger(db, LapsedOn(LocatedFor(db, req).Values, now), Releasing, now, |db.holds|);
  }

  lemma {:induction false} LedgerOnlyGrows(db: Db, ops: seq<Op>)
    requires Inv(db) && AdmissibleRun(db, ops)
    ensures db.ledger <= Run(db, ops).ledger
    decreases |ops|
  {
    if ops != [] {
      ApplyKeepsInv(db, ops[0]);
      ApplyAppends(db, ops[0]);
      LedgerOnlyGrows(Apply(db, ops[0]).0, ops[1..]);
    }
  }
}
