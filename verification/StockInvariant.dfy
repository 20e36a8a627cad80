/** The invariant tying stock positions, holds and the ledger together, and its preservation by every transaction.

    Reserved quantities are sums of HELD rows and on-hand quantities sums of ledger deltas, each ledger row carries its
    running sum, rows name the warehouse and SKU of their position, and what was dispatched is what was committed.
    Row-by-row lemmas carry this through the loops, one conjunct at a time; a reserve first expires and then places
    its lines, and the books hold after every line. */
module StockInvariant {
  import opened Common
  import opened StockTables
  import opened StockOps

  /** A position carries exactly what is held on it and exactly what the ledger adds up to. */
  ghost predicate PositionBooked(db: Db, i: Id)
    requires i in db.items
  {
    db.items[i].reserved == Total(db.holds, InStatus(i, Held)) && db.items[i].onHand == Balance(db.ledger, OnItem(i))
  }

  ghost predicate PositionsBooked(db: Db) {
    forall i {:trigger PositionBooked(db, i)} :: i in db.items ==> PositionBooked(db, i)
  }

  /** Each ledger row's resulting_on_hand is the running sum of its position's deltas. */
  ghost predicate RunningSums(ledger: seq<Movement>) {
    ledger == [] ||
    var n := |ledger| - 1;
    RunningSums(ledger[..n]) && ledger[n].resulting == Balance(ledger, OnItem(ledger[n].item))
  }

  lemma {:induction false} RunningSumAt(ledger: seq<Movement>, k: nat)
    requires RunningSums(ledger) && k < |ledger|
    ensures ledger[k].resulting == Balance(ledger[..k + 1], OnItem(ledger[k].item))
  {
    var n := |ledger| - 1;
    if k == n {
      assert ledger[..k + 1] == ledger;
    } else {
      RunningSumAt(ledger[..n], k);
      assert ledger[..n][..k + 1] == ledger[..k + 1];
    }
  }

  /** Rows name the warehouse and SKU of the position they belong to. */
  ghost predicate RowsAgree(db: Db)
    requires RowConstraints(db)
  {
    && (forall k :: 0 <= k < |db.holds| ==>
          db.holds[k].warehouse == db.items[db.holds[k].item].warehouse
          && db.holds[k].sku == db.items[db.holds[k].item].sku)
    && (forall k :: 0 <= k < |db.ledger| ==>
          db.ledger[k].warehouse == db.items[db.ledger[k].item].warehouse
          && db.ledger[k].sku == db.items[db.ledger[k].item].sku)
  }

  /** Goods leave a position, overall and for one shipment, exactly as holds on it are committed. */
  ghost predicate DispatchBookedFor(db: Db, i: Id, s: Id) {
    && Balance(db.ledger, DispatchedOn(i)) == -Total(db.holds, InStatus(i, Committed))
    && Balance(db.ledger, DispatchedFor(i, s)) == -Total(db.holds, ForShipmentIn(i, s, Committed))
  }

  ghost predicate DispatchBooked(db: Db) {
    forall i, s {:trigger DispatchBookedFor(db, i, s)} :: DispatchBookedFor(db, i, s)
  }

  ghost predicate Booked(db: Db) {
    RowConstraints(db) && PositionsBooked(db) && RunningSums(db.ledger) && RowsAgree(db) && DispatchBooked(db)
  }

  ghost predicate Inv(db: Db) {
    Booked(db) && UniqueLines(db.holds)
  }

  // ---------------------------------------------------------------- one row at a time

  /** A held row fits in its position's reservation and in its stock. */
  lemma HeldRowFits(db: Db, k: nat)
    requires Inv(db) && k < |db.holds| && db.holds[k].status == Held
    ensures db.holds[k].quantity <= db.items[db.holds[k].item].reserved <= db.items[db.holds[k].item].onHand
  {
    assert PositionBooked(db, db.holds[k].item);
    TotalBounds(db.holds, InStatus(db.holds[k].item, Held), k);
  }

  lemma AppendKeepsRunningSums(ledger: seq<Movement>, m: Movement)
    requires RunningSums(ledger) && m.resulting == Balance(ledger, OnItem(m.item)) + m.delta
    ensures RunningSums(ledger + [m])
  {
    assert (ledger + [m])[..|ledger|] == ledger;
    BalanceSnoc(ledger, m, OnItem(m.item));
  }

  lemma TouchKeepsConstraints(db: Db, act: Act, k: nat, now: Time)
    requires Inv(db) && k < |db.holds| && db.holds[k].status == Held
    ensures Constraints(Touch(db, act, k, now)) && RowsAgree(Touch(db, act, k, now))
  {
    HeldRowFits(db, k);
    var after := Touch(db, act, k, now);
    assert forall i :: i in db.items ==>
             after.items[i].warehouse == db.items[i].warehouse && after.items[i].sku == db.items[i].sku;
  }

  lemma TouchKeepsPositions(db: Db, act: Act, k: nat, now: Time)
    requires Constraints(db) && PositionsBooked(db) && k < |db.holds| && db.holds[k].status == Held
    ensures PositionsBooked(Touch(db, act, k, now))
  {
    var after := Touch(db, act, k, now);
    forall i | i in after.items ensures PositionBooked(after, i) {
      assert PositionBooked(db, i);
      TouchMovesSums(db, act, k, now, InStatus(i, Held), OnItem(i));
    }
  }

  lemma TouchKeepsDispatch(db: Db, act: Act, k: nat, now: Time)
    requires Constraints(db) && DispatchBooked(db) && k < |db.holds| && db.holds[k].status == Held
    ensures DispatchBooked(Touch(db, act, k, now))
  {
    var after := Touch(db, act, k, now);
    forall i, s ensures DispatchBookedFor(after, i, s) {
      assert DispatchBookedFor(db, i, s);
      TouchMovesSums(db, act, k, now, InStatus(i, Committed), DispatchedOn(i));
      TouchMovesSums(db, act, k, now, ForShipmentIn(i, s, Committed), DispatchedFor(i, s));
    }
  }

  /** How processing one row moves a sum over the holds and a sum over the ledger. */
  lemma TouchMovesSums(db: Db, act: Act, k: nat, now: Time, f: Filter, g: LedgerFilter)
    requires k < |db.holds| && db.holds[k].item in db.items
    ensures var after := Touch(db, act, k, now);
            && Total(after.holds, f) == Total(db.holds, f) - Weight(f, db.holds[k]) + Weight(f, after.holds[k])
            && (act == Committing ==>
                  Balance(after.ledger, g) == Balance(db.ledger, g) + Entry(g, after.ledger[|db.ledger|]))
  {
    var after := Touch(db, act, k, now);
    assert after.holds == db.holds[k := after.holds[k]];
    TotalUpdate(db.holds, k, after.holds[k], f);
    if act == Committing {
      BalanceSnoc(db.ledger, after.ledger[|db.ledger|], g);
    }
  }

  lemma TouchKeepsRunningSums(db: Db, act: Act, k: nat, now: Time)
    requires Constraints(db) && PositionsBooked(db) && RunningSums(db.ledger) && k < |db.holds|
    ensures RunningSums(Touch(db, act, k, now).ledger)
  {
    if act == Committing {
      var it := db.items[db.holds[k].item];
      assert PositionBooked(db, db.holds[k].item);
      AppendKeepsRunningSums(db.ledger,
                             Movement(db.holds[k].item, it.warehouse, it.sku, OutboundDispatch, -db.holds[k].quantity,
                                                 it.onHand - db.holds[k].quantity, ForShipment(db.holds[k].shipment)));
    }
  }

  lemma TouchKeepsInv(db: Db, act: Act, k: nat, now: Time)
    requires Inv(db) && k < |db.holds| && db.holds[k].status == Held
    ensures Inv(Touch(db, act, k, now))
  {
    TouchKeepsConstraints(db, act, k, now);
    TouchKeepsPositions(db, act, k, now);
    TouchKeepsDispatch(db, act, k, now);
    TouchKeepsRunningSums(db, act, k, now);
  }

  lemma {:induction false} TouchUpToKeepsInv(db: Db, pick: Pick, act: Act, now: Time, bound: nat)
    requires Inv(db) && bound <= |db.holds|
    ensures Inv(TouchUpTo(db, pick, act, now, bound))
  {
    if bound > 0 {
      TouchUpToKeepsInv(db, pick, act, now, bound - 1);
      if Picks(pick, db.holds[bound - 1]) {
        TouchKeepsInv(TouchUpTo(db, pick, act, now, bound - 1), act, bound - 1, now);
      }
    }
  }

  // ---------------------------------------------------------------- reserve

  /** Positions found for a request are the warehouse's own, one per SKU. */
  lemma LocatedIsExact(items: map<Id, Item>, warehouse: Id, skus: set<Id>)
    requires UniquePositions(items)
    ensures forall s :: s in Located(items, warehouse, skus) <==>
              s in skus && exists i :: i in items && items[i].warehouse == warehouse && items[i].sku == s
    ensures forall s :: s in Located(items, warehouse, skus) ==>
              var i := Located(items, warehouse, skus)[s];
              i in items && items[i].warehouse == warehouse && items[i].sku == s
  {
  }

  /** The request's positions exist, belong to the right warehouse and SKU, and hold enough free stock. */
  ghost predicate Placeable(db: Db, req: Request, at: map<Id, Id>) {
    forall m :: 0 <= m < |req.lines| ==>
      && req.lines[m].sku in at && at[req.lines[m].sku] in db.items
      && db.items[at[req.lines[m].sku]].warehouse == req.warehouse
      && db.items[at[req.lines[m].sku]].sku == req.lines[m].sku
      && req.lines[m].quantity <= Available(db.items[at[req.lines[m].sku]])
  }

  /** Positions of lines not yet placed are untouched; no position changes warehouse or SKU. */
  lemma {:induction false} HoldLinesFrame(db: Db, req: Request, at: map<Id, Id>, expiresAt: Time, n: nat)
    requires ValidRequest(req) && Placeable(db, req, at) && n <= |req.lines|
    ensures forall m :: n <= m < |req.lines| ==>
              HoldLines(db, req, at, expiresAt, n).items[at[req.lines[m].sku]] == db.items[at[req.lines[m].sku]]
    ensures forall i :: i in db.items ==>
              && HoldLines(db, req, at, expiresAt, n).items[i].warehouse == db.items[i].warehouse
              && HoldLines(db, req, at, expiresAt, n).items[i].sku == db.items[i].sku
              && HoldLines(db, req, at, expiresAt, n).items[i].onHand == db.items[i].onHand
  {
    if n > 0 {
      HoldLinesFrame(db, req, at, expiresAt, n - 1);
    }
  }

  /** Placing one line books it: the reservation grows by exactly the new hold. */
  lemma PlaceKeepsPositions(db: Db, h: Hold)
    requires PositionsBooked(db) && h.item in db.items && h.status == Held
    ensures PositionsBooked(Place(db, h))
  {
    var after := Place(db, h);
    forall i | i in after.items ensures PositionBooked(after, i) {
      assert PositionBooked(db, i);
      TotalSnoc(db.holds, h, InStatus(i, Held));
    }
  }

  lemma PlaceKeepsDispatch(db: Db, h: Hold)
    requires DispatchBooked(db) && h.item in db.items && h.status == Held
    ensures DispatchBooked(Place(db, h))
  {
    var after := Place(db, h);
    forall i, s ensures DispatchBookedFor(after, i, s) {
      assert DispatchBookedFor(db, i, s);
      TotalSnoc(db.holds, h, InStatus(i, Committed));
      TotalSnoc(db.holds, h, ForShipmentIn(i, s, Committed));
    }
  }

  lemma PlaceKeepsConstraints(db: Db, h: Hold)
    requires RowConstraints(db) && RowsAgree(db) && h.item in db.items && h.status == Held
    requires h.warehouse == db.items[h.item].warehouse && h.sku == db.items[h.item].sku
    requires HoldChecks(h) && db.items[h.item].reserved + h.quantity <= db.items[h.item].onHand
    ensures RowConstraints(Place(db, h)) && RowsAgree(Place(db, h))
  {
  }

  lemma PlaceKeepsBooked(db: Db, h: Hold)
    requires Booked(db) && h.item in db.items && h.status == Held
    requires h.warehouse == db.items[h.item].warehouse && h.sku == db.items[h.item].sku
    requires HoldChecks(h) && db.items[h.item].reserved + h.quantity <= db.items[h.item].onHand
    ensures Booked(Place(db, h))
  {
    PlaceKeepsPositions(db, h);
    PlaceKeepsDispatch(db, h);
    PlaceKeepsConstraints(db, h);
  }

  /** The next line still fits: earlier lines took other positions. */
  lemma NextLineFits(db: Db, req: Request, at: map<Id, Id>, expiresAt: Time, n: nat)
    requires ValidRequest(req) && Placeable(db, req, at) && n < |req.lines|
    ensures var p := HoldLines(db, req, at, expiresAt, n);
            var h := NewHold(req, n, at[req.lines[n].sku], expiresAt);
            && HoldLines(db, req, at, expiresAt, n + 1) == Place(p, h)
            && h.item in p.items && h.status == Held && HoldChecks(h)
            && p.items[h.item].reserved + h.quantity <= p.items[h.item].onHand
            && h.warehouse == p.items[h.item].warehouse && h.sku == p.items[h.item].sku
  {
    HoldLinesFrame(db, req, at, expiresAt, n);
  }

  lemma PlaceNextKeepsBooked(db: Db, req: Request, at: map<Id, Id>, expiresAt: Time, n: nat)
    requires ValidRequest(req) && Placeable(db, req, at) && n < |req.lines|
    requires Booked(HoldLines(db, req, at, expiresAt, n))
    ensures Booked(HoldLines(db, req, at, expiresAt, n + 1))
  {
    NextLineFits(db, req, at, expiresAt, n);
    PlaceKeepsBooked(HoldLines(db, req, at, expiresAt, n), NewHold(req, n, at[req.lines[n].sku], expiresAt));
  }

  lemma {:induction false} HoldLinesKeepsBooked(db: Db, req: Request, at: map<Id, Id>, expiresAt: Time, n: nat)
    requires Booked(db) && ValidRequest(req) && Placeable(db, req, at) && n <= |req.lines|
    ensures Booked(HoldLines(db, req, at, expiresAt, n))
  {
    if n > 0 {
      HoldLinesKeepsBooked(db, req, at, expiresAt, n - 1);
      PlaceNextKeepsBooked(db, req, at, expiresAt, n - 1);
    }
  }

  lemma ExpireKeepsInv(db: Db, positions: set<Id>, now: Time)
    requires Inv(db)
    ensures Inv(Expire(db, positions, now).0)
    ensures Expire(db, positions, now).1.Moved?
    ensures Expire(db, positions, now).0 == TouchAll(db, LapsedOn(positions, now), Releasing, now)
  {
    TouchUpToKeepsInv(db, LapsedOn(positions, now), Releasing, now, |db.holds|);
  }

  /** Processing holds never moves a position to another warehouse or SKU. */
  lemma {:induction false} TouchKeepsPlaces(db: Db, pick: Pick, act: Act, now: Time, bound: nat)
    requires ItemsExist(db) && bound <= |db.holds|
    ensures forall i :: i in db.items ==>
              && TouchUpTo(db, pick, act, now, bound).items[i].warehouse == db.items[i].warehouse
              && TouchUpTo(db, pick, act, now, bound).items[i].sku == db.items[i].sku
  {
    if bound > 0 {
      TouchKeepsPlaces(db, pick, act, now, bound - 1);
    }
  }

  /** After lapsed holds are freed, every line that passed the stock check can be placed. */
  lemma PassedChecksArePlaceable(db: Db, req: Request, now: Time)
    requires Inv(db)
    requires var at := Located(db.items, req.warehouse, SkuSet(req.lines));
             var freed := TouchAll(db, LapsedOn(at.Values, now), Releasing, now);
             at.Values <= freed.items.Keys && AllLocated(req, at) && AllCovered(freed.items, req, at)
    ensures var at := Located(db.items, req.warehouse, SkuSet(req.lines));
            Placeable(TouchAll(db, LapsedOn(at.Values, now), Releasing, now), req, at)
  {
    var at := Located(db.items, req.warehouse, SkuSet(req.lines));
    LocatedIsExact(db.items, req.warehouse, SkuSet(req.lines));
    TouchKeepsPlaces(db, LapsedOn(at.Values, now), Releasing, now, |db.holds|);
  }

  /** The positions a request locks, and the tables once the lapsed holds on them are freed. */
  ghost function LocatedFor(db: Db, req: Request): map<Id, Id>
    requires Constraints(db)
  {
    Located(db.items, req.warehouse, SkuSet(req.lines))
  }

  ghost function Freed(db: Db, req: Request, now: Time): Db
    requires Constraints(db)
  {
    TouchAll(db, LapsedOn(LocatedFor(db, req).Values, now), Releasing, now)
  }

  lemma FreedIsReady(db: Db, req: Request, now: Time)
    requires Inv(db)
    ensures Inv(Freed(db, req, now))
    ensures LocatedFor(db, req).Values <= Freed(db, req, now).items.Keys
    ensures AllLocated(req, LocatedFor(db, req)) && AllCovered(Freed(db, req, now).items, req, LocatedFor(db, req)) ==>
              Placeable(Freed(db, req, now), req, LocatedFor(db, req))
  {
    ExpireKeepsInv(db, LocatedFor(db, req).Values, now);
    if AllLocated(req, LocatedFor(db, req)) && AllCovered(Freed(db, req, now).items, req, LocatedFor(db, req)) {
      PassedChecksArePlaceable(db, req, now);
    }
  }

  /** Placing every line of a request that passed its checks keeps the books. */
  lemma PlacedIsBooked(db: Db, req: Request, window: int, now: Time)
    requires Inv(db) && ValidRequest(req) && AllLocated(req, LocatedFor(db, req))
    requires LocatedFor(db, req).Values <= Freed(db, req, now).items.Keys
    requires AllCovered(Freed(db, req, now).items, req, LocatedFor(db, req))
    ensures Booked(PlaceAll(Freed(db, req, now), req, LocatedFor(db, req), now + window))
  {
    FreedIsReady(db, req, now);
    HoldLinesKeepsBooked(Freed(db, req, now), req, LocatedFor(db, req), now + window, |req.lines|);
  }

  /** The five ways a request past the existence check can end; the item checks never decide. */
  lemma ReserveLockedIs(db: Db, req: Request, cat: Catalog, window: int, now: Time)
    requires Inv(db) && ValidRequest(req)
    ensures var at, freed := LocatedFor(db, req), Freed(db, req, now);
            && at.Values <= freed.items.Keys
            && ReserveLocked(db, req, cat, window, now) ==
               if Gate(req, cat).Some? then (db, Refused(Gate(req, cat).value))
               else if !AllLocated(req, at) then (db, Refused(NoPosition))
               else if !AllCovered(freed.items, req, at) then (db, Refused(InsufficientStock))
               else if !UniqueLines(PlaceAll(freed, req, at, now + window).holds) then (db, Refused(DuplicateLine))
               else (PlaceAll(freed, req, at, now + window), Created)
  {
    var at, freed := LocatedFor(db, req), Freed(db, req, now);
    FreedIsReady(db, req, now);
    ExpireKeepsInv(db, at.Values, now);
    if AllLocated(req, at) && AllCovered(freed.items, req, at)
       && UniqueLines(PlaceAll(freed, req, at, now + window).holds) {
      PlacedIsBooked(db, req, window, now);
    }
  }

  lemma ReserveLockedKeepsInv(db: Db, req: Request, cat: Catalog, window: int, now: Time)
    requires Inv(db) && ValidRequest(req)
    ensures Inv(ReserveLocked(db, req, cat, window, now).0)
  {
    ReserveLockedIs(db, req, cat, window, now);
    if ReserveLocked(db, req, cat, window, now).1.Created? {
      PlacedIsBooked(db, req, window, now);
    }
  }

  // ---------------------------------------------------------------- adjust and open

  /** A ledger row that is no dispatch, matched by its position's on-hand count, keeps the books. */
  lemma CorrectionKeepsBooks(db: Db, i: Id, it: Item, m: Movement)
    requires PositionsBooked(db) && DispatchBooked(db) && m.item == i && !m.reference.ForShipment?
    requires it.reserved == Total(db.holds, InStatus(i, Held)) && it.onHand == Balance(db.ledger, OnItem(i)) + m.delta
    ensures PositionsBooked(Db(db.items[i := it], db.holds, db.ledger + [m]))
    ensures DispatchBooked(Db(db.items[i := it], db.holds, db.ledger + [m]))
  {
    var after := Db(db.items[i := it], db.holds, db.ledger + [m]);
    forall j | j in after.items ensures PositionBooked(after, j) {
      assert j in db.items ==> PositionBooked(db, j);
      BalanceSnoc(db.ledger, m, OnItem(j));
    }
    forall j, s ensures DispatchBookedFor(after, j, s) {
      assert DispatchBookedFor(db, j, s);
      BalanceSnoc(db.ledger, m, DispatchedOn(j));
      BalanceSnoc(db.ledger, m, DispatchedFor(j, s));
    }
  }

  lemma CorrectionKeepsConstraints(db: Db, i: Id, it: Item, m: Movement)
    requires Constraints(db) && RowsAgree(db) && m.item == i && m.delta != 0 && ItemChecks(it)
    requires m.warehouse == it.warehouse && m.sku == it.sku
    requires i in db.items ==> it.warehouse == db.items[i].warehouse && it.sku == db.items[i].sku
    requires UniquePositions(db.items[i := it])
    ensures Constraints(Db(db.items[i := it], db.holds, db.ledger + [m]))
    ensures RowsAgree(Db(db.items[i := it], db.holds, db.ledger + [m]))
  {
  }

  lemma AdjustKeepsInv(db: Db, position: Id, kind: MovementKind, delta: int)
    requires Inv(db) && delta != 0
    ensures Inv(Adjust(db, position, kind, delta).0)
  {
    if position in db.items && !Adjust(db, position, kind, delta).1.Refused? {
      var it := db.items[position];
      var it' := it.(onHand := it.onHand + delta, version := it.version + 1);
      var m := Movement(position, it.warehouse, it.sku, kind, delta, it'.onHand, Correction);
      assert it' == Adjust(db, position, kind, delta).0.items[position];
      assert PositionBooked(db, position);
      AppendKeepsRunningSums(db.ledger, m);
      CorrectionKeepsBooks(db, position, it', m);
      CorrectionKeepsConstraints(db, position, it', m);
    }
  }

  /** A position that does not exist has no rows. */
  lemma {:induction false} NoRowsNoTotal(holds: seq<Hold>, i: Id, s: Status)
    requires forall k :: 0 <= k < |holds| ==> holds[k].item != i
    ensures Total(holds, InStatus(i, s)) == 0
  {
    if holds != [] {
      NoRowsNoTotal(holds[..|holds| - 1], i, s);
    }
  }

  lemma {:induction false} NoRowsNoBalance(ledger: seq<Movement>, i: Id)
    requires forall k :: 0 <= k < |ledger| ==> ledger[k].item != i
    ensures Balance(ledger, OnItem(i)) == 0
  {
    if ledger != [] {
      NoRowsNoBalance(ledger[..|ledger| - 1], i);
    }
  }

  lemma OpenKeepsInv(db: Db, position: Id, warehouse: Id, sku: Id, onHand: int, cat: Catalog, knownSkus: set<Id>)
    requires Inv(db) && position !in db.items && onHand >= 0
    ensures Inv(OpenPosition(db, position, warehouse, sku, onHand, cat, knownSkus).0)
  {
    var it := Item(warehouse, sku, onHand, 0, 1);
    NoRowsNoTotal(db.holds, position, Held);
    NoRowsNoBalance(db.ledger, position);
    if UniquePositions(db.items[position := it]) {
      if onHand != 0 {
        var m := Movement(position, warehouse, sku, InboundReceipt, onHand, onHand, Opening);
        AppendKeepsRunningSums(db.ledger, m);
        CorrectionKeepsBooks(db, position, it, m);
        CorrectionKeepsConstraints(db, position, it, m);
      } else {
        EmptyPositionIsBooked(db, position, it);
      }
    }
  }

  lemma EmptyPositionIsBooked(db: Db, i: Id, it: Item)
    requires PositionsBooked(db) && DispatchBooked(db) && it.reserved == Total(db.holds, InStatus(i, Held))
    requires it.onHand == Balance(db.ledger, OnItem(i))
    ensures PositionsBooked(db.(items := db.items[i := it])) && DispatchBooked(db.(items := db.items[i := it]))
  {
    var after := db.(items := db.items[i := it]);
    forall j | j in after.items ensures PositionBooked(after, j) {
      assert j in db.items ==> PositionBooked(db, j);
    }
    forall j, s ensures DispatchBookedFor(after, j, s) {
      assert DispatchBookedFor(db, j, s);
    }
  }

  // ---------------------------------------------------------------- every transaction

  lemma ApplyKeepsInv(db: Db, op: Op)
    requires Inv(db) && Admissible(db, op)
    ensures Inv(Apply(db, op).0)
  {
    match op
    case DoReserve(req, cat, window, now) => ReserveLockedKeepsInv(db, req, cat, window, now);
    case DoReserveRaced(req, cat, window, now) => ReserveLockedKeepsInv(db, req, cat, window, now);
    case DoConfirm(s, now) => TouchUpToKeepsInv(db, HeldFor(s), Confirming, now, |db.holds|);
    case DoCommit(s, now) => TouchUpToKeepsInv(db, HeldFor(s), Committing, now, |db.holds|);
    case DoRelease(s, now) => TouchUpToKeepsInv(db, HeldFor(s), Releasing, now, |db.holds|);
    case DoSweep(scope, now) => ExpireKeepsInv(db, SweepPositions(db, scope, now), now);
    case DoAdjust(position, kind, delta) => AdjustKeepsInv(db, position, kind, delta);
    case DoOpen(position, w, sku, onHand, cat, known) => OpenKeepsInv(db, position, w, sku, onHand, cat, known);
  }
}
