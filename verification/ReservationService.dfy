/** ReservationService and StockService as code that changes the tables in place, proved against the transactions of
    StockOps.

    Loops over selected rows are proved equal to the row-by-row functions first. */
module ReservationService {
  import opened Common
  import opened StockTables
  import opened StockOps

  /** The ids of the rows a statement selects, in id order. */
  function PickedIds(holds: seq<Hold>, pick: Pick): (r: seq<nat>)
    ensures forall j :: 0 <= j < |r| ==> r[j] < |holds|
    ensures |r| == CountPicks(holds, pick)
  {
    if holds == [] then []
    else
      var n := |holds| - 1;
      PickedIds(holds[..n], pick) + (if Picks(pick, holds[n]) then [n] else [])
  }

  ghost predicate RowsOf(db: Db, rows: seq<nat>) {
    ItemsExist(db) && forall j :: 0 <= j < |rows| ==> rows[j] < |db.holds|
  }

  /** The tables after the first j listed rows have been processed. */
  ghost function TouchRows(db: Db, act: Act, rows: seq<nat>, now: Time, j: nat): (r: Db)
    requires RowsOf(db, rows) && j <= |rows|
    ensures RowsOf(r, rows) && |r.holds| == |db.holds| && r.items.Keys == db.items.Keys
  {
    if j == 0 then db else Touch(TouchRows(db, act, rows, now, j - 1), act, rows[j - 1], now)
  }

  lemma {:induction false} TouchRowsPrefix(db: Db, act: Act, a: seq<nat>, b: seq<nat>, now: Time, j: nat)
    requires RowsOf(db, a + b) && RowsOf(db, a) && j <= |a|
    ensures TouchRows(db, act, a + b, now, j) == TouchRows(db, act, a, now, j)
  {
    if j > 0 {
      TouchRowsPrefix(db, act, a, b, now, j - 1);
    }
  }

  lemma PickedIdsStep(holds: seq<Hold>, pick: Pick, n: nat)
    requires n < |holds|
    ensures PickedIds(holds[..n + 1], pick) == PickedIds(holds[..n], pick) + (if Picks(pick, holds[n]) then [n] else [])
  {
    assert holds[..n + 1][..n] == holds[..n];
  }

  lemma TouchRowsSnoc(db: Db, act: Act, rows: seq<nat>, k: nat, now: Time)
    requires RowsOf(db, rows) && k < |db.holds|
    ensures RowsOf(db, rows + [k])
    ensures TouchRows(db, act, rows + [k], now, |rows| + 1) == Touch(TouchRows(db, act, rows, now, |rows|), act, k, now)
  {
    TouchRowsPrefix(db, act, rows, [k], now, |rows|);
  }

  /** Looping over the selected rows computes what the statement is specified to do. */
  lemma {:induction false} LoopIsTouch(db: Db, pick: Pick, act: Act, now: Time, bound: nat)
    requires ItemsExist(db) && bound <= |db.holds|
    ensures RowsOf(db, PickedIds(db.holds[..bound], pick))
    ensures var rows := PickedIds(db.holds[..bound], pick);
            TouchRows(db, act, rows, now, |rows|) == TouchUpTo(db, pick, act, now, bound)
  {
    if bound > 0 {
      var k := bound - 1;
      var before := PickedIds(db.holds[..k], pick);
      LoopIsTouch(db, pick, act, now, k);
      PickedIdsStep(db.holds, pick, k);
      if Picks(pick, db.holds[k]) {
        TouchRowsSnoc(db, act, before, k, now);
        assert PickedIds(db.holds[..bound], pick) == before + [k];
        assert TouchUpTo(db, pick, act, now, bound) == Touch(TouchUpTo(db, pick, act, now, k), act, k, now);
      } else {
        assert PickedIds(db.holds[..bound], pick) == before;
        assert TouchUpTo(db, pick, act, now, bound) == TouchUpTo(db, pick, act, now, k);
      }
    }
  }

  lemma WholeLoopIsTouchAll(db: Db, pick: Pick, act: Act, now: Time)
    requires ItemsExist(db)
    ensures RowsOf(db, PickedIds(db.holds, pick))
    ensures TouchRows(db, act, PickedIds(db.holds, pick), now, |PickedIds(db.holds, pick)|) ==
              TouchAll(db, pick, act, now)
  {
    assert db.holds[..|db.holds|] == db.holds;
    LoopIsTouch(db, pick, act, now, |db.holds|);
  }

  class Service {
    var items: map<Id, Item>
    var holds: seq<Hold>
    var ledger: seq<Movement>
    const unconfirmedHold: int

    constructor (items: map<Id, Item>, holds: seq<Hold>, ledger: seq<Movement>, unconfirmedHold: int)
      ensures Tables() == Db(items, holds, ledger) && this.unconfirmedHold == unconfirmedHold
    {
      this.items, this.holds, this.ledger, this.unconfirmedHold := items, holds, ledger, unconfirmedHold;
    }

    function Tables(): Db
      reads this
    {
      Db(items, holds, ledger)
    }

    /** The select of a shipment's HELD rows, or of the lapsed rows on locked positions. */
    method Select(pick: Pick) returns (rows: seq<nat>)
      ensures rows == PickedIds(holds, pick)
    {
      rows := [];
      for k := 0 to |holds|
        invariant rows == PickedIds(holds[..k], pick)
      {
        assert holds[..k + 1][..k] == holds[..k];
        if Picks(pick, holds[k]) {
          rows := rows + [k];
        }
      }
      assert holds[..|holds|] == holds;
    }

    method Confirm(shipment: Id, now: Time) returns (outcome: Outcome)
      requires Constraints(Tables())
      modifies this
      ensures (Tables(), outcome) == StockOps.Confirm(old(Tables()), shipment, now)
    {
      var rows := Select(HeldFor(shipment));
      WholeLoopIsTouchAll(Tables(), HeldFor(shipment), Confirming, now);
      for j := 0 to |rows|
        invariant RowsOf(old(Tables()), rows) && Tables() == TouchRows(old(Tables()), Confirming, rows, now, j)
      {
        ConfirmOne(rows[j], now);
      }
      outcome := Moved(|rows|);
    }

    method Commit(shipment: Id, now: Time) returns (outcome: Outcome)
      requires Constraints(Tables())
      modifies this
      ensures (Tables(), outcome) == StockOps.Commit(old(Tables()), shipment, now)
    {
      var rows := Select(HeldFor(shipment));
      if rows == [] {
        var committed := HasStatus(shipment, Committed);
        outcome := if committed then Moved(0) else Refused(NothingToCommit);
        return;
      }
      var before := Tables();
      WholeLoopIsTouchAll(before, HeldFor(shipment), Committing, now);
      for j := 0 to |rows|
        invariant RowsOf(old(Tables()), rows) && Tables() == TouchRows(old(Tables()), Committing, rows, now, j)
      {
        CommitOne(rows[j], now);
      }
      outcome := Flush(before, Moved(|rows|));
    }

    method HasStatus(shipment: Id, status: Status) returns (found: bool)
      ensures found == HasRow(holds, shipment, status)
    {
      found := false;
      for k := 0 to |holds|
        invariant found == exists j :: 0 <= j < k && holds[j].shipment == shipment && holds[j].status == status
      {
        if holds[k].shipment == shipment && holds[k].status == status {
          found := true;
        }
      }
    }

    /** The flush: a violated item check makes the caller roll back to `before`. */
    method Flush(before: Db, ok: Outcome) returns (outcome: Outcome)
      modifies this
      ensures (Tables(), outcome) == Flushed(before, old(Tables()), ok)
    {
      if AllItemChecks(items) {
        outcome := ok;
      } else {
        items, holds, ledger := before.items, before.holds, before.ledger;
        outcome := Refused(ItemCheckViolated);
      }
    }

    method ConfirmOne(row: nat, now: Time)
      requires row < |holds| && holds[row].item in items
      modifies this
      ensures Tables() == Touch(old(Tables()), Confirming, row, now)
    {
      var hold := holds[row];
      if hold.confirmedAt.None? {
        holds := holds[row := hold.(confirmedAt := Some(now), expiresAt := None)];
      }
    }

    method CommitOne(row: nat, now: Time)
      requires row < |holds| && holds[row].item in items
      modifies this
      ensures Tables() == Touch(old(Tables()), Committing, row, now)
    {
      var hold := holds[row];
      var item := items[hold.item];
      item := item.(onHand := item.onHand - hold.quantity);
      item := item.(reserved := item.reserved - hold.quantity);
      item := item.(version := item.version + 1);
      items := items[hold.item := item];
      ledger := ledger + [Movement(hold.item, item.warehouse, item.sku, OutboundDispatch, -hold.quantity, item.onHand,
                                   ForShipment(hold.shipment))];
      holds := holds[row := hold.(status := Committed, committedAt := Some(now))];
    }

    method ReleaseOne(row: nat, now: Time)
      requires row < |holds| && holds[row].item in items
      modifies this
      ensures Tables() == Touch(old(Tables()), Releasing, row, now)
    {
      var hold := holds[row];
      var item := items[hold.item];
      item := item.(reserved := item.reserved - hold.quantity);
      item := item.(version := item.version + 1);
      items := items[hold.item := item];
      holds := holds[row := hold.(status := Released, releasedAt := Some(now))];
    }

    /** The loop shared by release and _expire_unconfirmed. */
    method ReleaseRows(pick: Pick, now: Time) returns (released: nat)
      requires Constraints(Tables())
      modifies this
      ensures Tables() == TouchAll(old(Tables()), pick, Releasing, now)
      ensures released == CountPicks(old(holds), pick)
    {
      var rows := Select(pick);
      WholeLoopIsTouchAll(Tables(), pick, Releasing, now);
      for j := 0 to |rows|
        invariant RowsOf(old(Tables()), rows) && Tables() == TouchRows(old(Tables()), Releasing, rows, now, j)
      {
        ReleaseOne(rows[j], now);
      }
      released := |rows|;
    }

    method Release(shipment: Id, now: Time) returns (outcome: Outcome)
      requires Constraints(Tables())
      modifies this
      ensures (Tables(), outcome) == StockOps.Release(old(Tables()), shipment, now)
    {
      var before := Tables();
      var released := ReleaseRows(HeldFor(shipment), now);
      outcome := Flush(before, Moved(released));
    }

    method ExpireUnconfirmed(positions: set<Id>, now: Time) returns (outcome: Outcome)
      requires Constraints(Tables())
      modifies this
      ensures (Tables(), outcome) == Expire(old(Tables()), positions, now)
    {
      var before := Tables();
      var released := ReleaseRows(LapsedOn(positions, now), now);
      outcome := Flush(before, Moved(released));
    }

    method ReleaseExpired(scope: Option<set<Id>>, now: Time) returns (outcome: Outcome)
      requires Constraints(Tables())
      modifies this
      ensures (Tables(), outcome) == Sweep(old(Tables()), scope, now)
    {
      var positions: set<Id> := {};
      for k := 0 to |holds|
        invariant Tables() == old(Tables())
        invariant positions == set j | 0 <= j < k && Lapsed(holds[j], now)
                  && (scope.None? || holds[j].warehouse in scope.value)
                                 :: holds[j].item
      {
        if Lapsed(holds[k], now) && (scope.None? || holds[k].warehouse in scope.value) {
          positions := positions + {holds[k].item};
        }
      }
      outcome := ExpireUnconfirmed(positions, now);
    }

    method RowsForShipment(shipment: Id) returns (rows: seq<Hold>)
      ensures rows == ExistingRows(holds, shipment)
    {
      rows := [];
      for k := 0 to |holds|
        invariant rows == ExistingRows(holds[..k], shipment)
      {
        assert holds[..k + 1][..k] == holds[..k];
        if holds[k].shipment == shipment {
          rows := rows + [holds[k]];
        }
      }
      assert holds[..|holds|] == holds;
    }

    method Reserve(req: Request, cat: Catalog, now: Time) returns (outcome: Outcome)
      requires Constraints(Tables()) && ValidRequest(req)
      modifies this
      ensures (Tables(), outcome) == StockOps.Reserve(old(Tables()), req, cat, unconfirmedHold, now)
    {
      var existing := RowsForShipment(req.shipment);
      if existing != [] {
        outcome := Replay(req, existing);
        return;
      }
      outcome := ReservePastCheck(req, cat, now);
    }

    /** Everything reserve does after finding no row of the shipment. */
    method ReservePastCheck(req: Request, cat: Catalog, now: Time) returns (outcome: Outcome)
      requires Constraints(Tables()) && ValidRequest(req)
      modifies this
      ensures (Tables(), outcome) == ReserveLocked(old(Tables()), req, cat, unconfirmedHold, now)
    {
      var before := Tables();
      var gate := Gate(req, cat);
      if gate.Some? {
        outcome := Refused(gate.value);
        return;
      }
      var at := Located(items, req.warehouse, SkuSet(req.lines));
      outcome := ExpireUnconfirmed(at.Values, now);
      if outcome.Refused? {
        return;
      }
      if !AllLocated(req, at) {
        outcome := RollBack(before, NoPosition);
        return;
      }
      if !AllCovered(items, req, at) {
        outcome := RollBack(before, InsufficientStock);
        return;
      }
      outcome := HoldAll(before, req, at, now + unconfirmedHold);
    }

    /** The holds of every line, and the flush that keeps or undoes them all. */
    method HoldAll(before: Db, req: Request, at: map<Id, Id>, expiresAt: Time) returns (outcome: Outcome)
      requires forall m :: 0 <= m < |req.lines| ==> req.lines[m].sku in at && at[req.lines[m].sku] in items
      modifies this
      ensures (Tables(), outcome) ==
              (var placed := PlaceAll(old(Tables()), req, at, expiresAt);
               if !UniqueLines(placed.holds) then (before, Refused(DuplicateLine))
               else Flushed(before, placed, Created))
    {
      PlaceLines(req, at, expiresAt);
      if !UniqueLines(holds) {
        outcome := RollBack(before, DuplicateLine);
        return;
      }
      outcome := Flush(before, Created);
    }

    method RollBack(before: Db, why: Refusal) returns (outcome: Outcome)
      modifies this
      ensures Tables() == before && outcome == Refused(why)
    {
      items, holds, ledger := before.items, before.holds, before.ledger;
      outcome := Refused(why);
    }

    method PlaceLines(req: Request, at: map<Id, Id>, expiresAt: Time)
      requires forall m :: 0 <= m < |req.lines| ==> req.lines[m].sku in at && at[req.lines[m].sku] in items
      modifies this
      ensures Tables() == PlaceAll(old(Tables()), req, at, expiresAt)
    {
      for n := 0 to |req.lines|
        invariant Tables() == HoldLines(old(Tables()), req, at, expiresAt, n)
      {
        var line := req.lines[n];
        var position := at[line.sku];
        var item := items[position];
        item := item.(reserved := item.reserved + line.quantity);
        item := item.(version := item.version + 1);
        items := items[position := item];
        holds := holds + [Hold(position, req.shipment, req.warehouse, line.sku, line.quantity, Held,
                               Some(expiresAt), None, None, None)];
      }
    }

    method Adjust(position: Id, kind: MovementKind, delta: int) returns (outcome: Outcome)
      requires Constraints(Tables()) && delta != 0
      modifies this
      ensures (Tables(), outcome) == StockOps.Adjust(old(Tables()), position, kind, delta)
    {
      if position !in items {
        outcome := Refused(PositionNotFound);
        return;
      }
      var before := Tables();
      var item := items[position];
      item := item.(onHand := item.onHand + delta);
      item := item.(version := item.version + 1);
      items := items[position := item];
      ledger := ledger + [Movement(position, item.warehouse, item.sku, kind, delta, item.onHand, Correction)];
      outcome := Flush(before, Adjusted);
    }

    method OpenPosition(position: Id, warehouse: Id, sku: Id, onHand: int, cat: Catalog, knownSkus: set<Id>)
      returns (outcome: Outcome)
      requires Constraints(Tables()) && position !in items && onHand >= 0
      modifies this
      ensures (Tables(), outcome) ==
                StockOps.OpenPosition(old(Tables()), position, warehouse, sku, onHand, cat, knownSkus)
    {
      if warehouse !in cat.warehouses {
        outcome := Refused(UnknownWarehouse);
      } else if !cat.warehouses[warehouse] {
        outcome := Refused(NotOperational);
      } else if sku !in knownSkus {
        outcome := Refused(UnknownSku);
      } else {
        var before := Tables();
        items := items[position := Item(warehouse, sku, onHand, 0, 1)];
        if !UniquePositions(items) {
          outcome := RollBack(before, DuplicatePosition);
          return;
        }
        if onHand != 0 {
          ledger := ledger + [Movement(position, warehouse, sku, InboundReceipt, onHand, onHand, Opening)];
        }
        outcome := Opened;
      }
    }
  }
}
