/** The transactions of ReservationService and StockService as functions on the tables.
    A refused transaction rolls back: its result is the state it started from.

    The loops over selected rows are functions of how many rows are done; what was selected is fixed beforehand. */
module StockOps {
  import opened Common
  import opened StockTables

  datatype Line = Line(sku: Id, quantity: int)

  datatype Request = Request(shipment: Id, warehouse: Id, lines: seq<Line>)

  /** What the request schema guarantees: at least one line, positive quantities, each SKU once. */
  predicate ValidRequest(r: Request) {
    && r.lines != []
    && (forall n :: 0 <= n < |r.lines| ==> r.lines[n].quantity > 0)
    && (forall m, n :: 0 <= m < n < |r.lines| ==> r.lines[m].sku != r.lines[n].sku)
  }

  /** The warehouse replica (is it operational?) and the undeleted SKUs (are they active?). */
  datatype Catalog = Catalog(warehouses: map<Id, bool>, skus: map<Id, bool>)

  datatype Refusal =
    | UnknownWarehouse | NotOperational | UnknownSku | InactiveSku
    | ReservationMismatch | NoPosition | InsufficientStock
    | NothingToCommit | PositionNotFound
    | ItemCheckViolated | DuplicateLine | DuplicatePosition

  datatype Outcome =
    | Created
    | Replayed(status: Status, confirmed: bool)
    | Moved(rows: nat)
    | Opened
    | Adjusted
    | Refused(why: Refusal)

  // ---------------------------------------------------------------- one row at a time

  datatype Act = Confirming | Committing | Releasing

  /** The loop bodies of confirm, commit and release applied to hold row k. */
  function Touch(db: Db, act: Act, k: nat, now: Time): Db
    requires k < |db.holds| && db.holds[k].item in db.items
  {
    var h := db.holds[k];
    var it := db.items[h.item];
    match act
    case Confirming =>
      if h.confirmedAt.None?
      then db.(holds := db.holds[k := h.(confirmedAt := Some(now), expiresAt := None)])
      else db
    case Committing =>
      var it' := it.(onHand := it.onHand - h.quantity, reserved := it.reserved - h.quantity, version := it.version + 1);
      Db(db.items[h.item := it'],
         db.holds[k := h.(status := Committed, committedAt := Some(now))],
         db.ledger + [Movement(h.item, it.warehouse, it.sku, OutboundDispatch, -h.quantity, it'.onHand,
                               ForShipment(h.shipment))])
    case Releasing =>
      Db(db.items[h.item := it.(reserved := it.reserved - h.quantity, version := it.version + 1)],
         db.holds[k := h.(status := Released, releasedAt := Some(now))],
         db.ledger)
  }

  predicate ItemsExist(db: Db) {
    forall k :: 0 <= k < |db.holds| ==> db.holds[k].item in db.items
  }

  /** The state after a statement's selected rows below `bound` have been processed in id order. */
  function TouchUpTo(db: Db, pick: Pick, act: Act, now: Time, bound: nat): (r: Db)
    requires ItemsExist(db) && bound <= |db.holds|
    ensures r.items.Keys == db.items.Keys
    ensures |r.holds| == |db.holds|
    ensures forall k :: bound <= k < |db.holds| ==> r.holds[k] == db.holds[k]
    ensures forall k :: 0 <= k < |db.holds| ==> r.holds[k].item == db.holds[k].item
    ensures ItemsExist(r)
  {
    if bound == 0 then db
    else
      var p := TouchUpTo(db, pick, act, now, bound - 1);
      if Picks(pick, db.holds[bound - 1]) then Touch(p, act, bound - 1, now) else p
  }

  function TouchAll(db: Db, pick: Pick, act: Act, now: Time): Db
    requires ItemsExist(db)
  {
    TouchUpTo(db, pick, act, now, |db.holds|)
  }

  function CountPicks(holds: seq<Hold>, pick: Pick): nat {
    if holds == [] then 0
    else CountPicks(holds[..|holds| - 1], pick) + (if Picks(pick, holds[|holds| - 1]) then 1 else 0)
  }

  // ---------------------------------------------------------------- confirm, commit, release, sweep

  function Confirm(db: Db, shipment: Id, now: Time): (Db, Outcome)
    requires Constraints(db)
  {
    (TouchAll(db, HeldFor(shipment), Confirming, now), Moved(CountPicks(db.holds, HeldFor(shipment))))
  }

  predicate HasRow(holds: seq<Hold>, shipment: Id, status: Status) {
    exists k :: 0 <= k < |holds| && holds[k].shipment == shipment && holds[k].status == status
  }

  function Commit(db: Db, shipment: Id, now: Time): (Db, Outcome)
    requires Constraints(db)
  {
    var pick := HeldFor(shipment);
    if CountPicks(db.holds, pick) == 0 then
      (db, if HasRow(db.holds, shipment, Committed) then Moved(0) else Refused(NothingToCommit))
    else Flushed(db, TouchAll(db, pick, Committing, now), Moved(CountPicks(db.holds, pick)))
  }

  function Release(db: Db, shipment: Id, now: Time): (Db, Outcome)
    requires Constraints(db)
  {
    var pick := HeldFor(shipment);
    Flushed(db, TouchAll(db, pick, Releasing, now), Moved(CountPicks(db.holds, pick)))
  }

  /** The positions a sweep locks: those with a lapsed hold in the scoped warehouses. */
  function SweepPositions(db: Db, scope: Option<set<Id>>, now: Time): set<Id> {
    set k | 0 <= k < |db.holds| && Lapsed(db.holds[k], now) && (scope.None? || db.holds[k].warehouse in scope.value)
      :: db.holds[k].item
  }

  function Sweep(db: Db, scope: Option<set<Id>>, now: Time): (Db, Outcome)
    requires Constraints(db)
  {
    Expire(db, SweepPositions(db, scope, now), now)
  }

  /** _expire_unconfirmed on positions this transaction has locked. */
  function Expire(db: Db, positions: set<Id>, now: Time): (Db, Outcome)
    requires Constraints(db)
  {
    var pick := LapsedOn(positions, now);
    Flushed(db, TouchAll(db, pick, Releasing, now), Moved(CountPicks(db.holds, pick)))
  }

  /** The flush: the item checks either accept the new rows or roll the transaction back. */
  function Flushed(before: Db, after: Db, ok: Outcome): (Db, Outcome) {
    if AllItemChecks(after.items) then (after, ok) else (before, Refused(ItemCheckViolated))
  }

  // ---------------------------------------------------------------- reserve

  function ExistingRows(holds: seq<Hold>, shipment: Id): seq<Hold> {
    if holds == [] then []
    else
      var last := holds[|holds| - 1];
      ExistingRows(holds[..|holds| - 1], shipment) + (if last.shipment == shipment then [last] else [])
  }

  function Wanted(lines: seq<Line>): set<(Id, int)> {
    set n | 0 <= n < |lines| :: (lines[n].sku, lines[n].quantity)
  }

  function HeldLines(rows: seq<Hold>): set<(Id, int)> {
    set k | 0 <= k < |rows| :: (rows[k].sku, rows[k].quantity)
  }

  /** _replay: the same request gets the existing rows back, whatever their status. */
  function Replay(req: Request, rows: seq<Hold>): Outcome
    requires rows != []
  {
    if Wanted(req.lines) != HeldLines(rows) || rows[0].warehouse != req.warehouse
    then Refused(ReservationMismatch)
    else Replayed(if forall k :: 0 <= k < |rows| ==> rows[k].status == rows[0].status then rows[0].status else Held,
                  forall k :: 0 <= k < |rows| ==> rows[k].confirmedAt.Some?)
  }

  function SkuSet(lines: seq<Line>): set<Id> {
    set n | 0 <= n < |lines| :: lines[n].sku
  }

  /** _lock_items: the warehouse's positions for these SKUs, by SKU. */
  function Located(items: map<Id, Item>, warehouse: Id, skus: set<Id>): map<Id, Id>
    requires UniquePositions(items)
  {
    map i | i in items && items[i].warehouse == warehouse && items[i].sku in skus :: items[i].sku := i
  }

  function Available(it: Item): int { it.onHand - it.reserved }

  function NewHold(req: Request, n: nat, position: Id, expiresAt: Time): Hold
    requires n < |req.lines|
  {
    Hold(position, req.shipment, req.warehouse, req.lines[n].sku, req.lines[n].quantity,
         Held, Some(expiresAt), None, None, None)
  }

  /** The rows the first n lines of a request insert. */
  function NewRows(req: Request, at: map<Id, Id>, expiresAt: Time, n: nat): (r: seq<Hold>)
    requires n <= |req.lines| && forall m :: 0 <= m < |req.lines| ==> req.lines[m].sku in at
    ensures |r| == n
  {
    if n == 0 then []
    else NewRows(req, at, expiresAt, n - 1) + [NewHold(req, n - 1, at[req.lines[n - 1].sku], expiresAt)]
  }

  /** The state after the first n lines of a request have been held. */
  function HoldLines(db: Db, req: Request, at: map<Id, Id>, expiresAt: Time, n: nat): (r: Db)
    requires n <= |req.lines|
    requires forall m :: 0 <= m < |req.lines| ==> req.lines[m].sku in at && at[req.lines[m].sku] in db.items
    ensures r.items.Keys == db.items.Keys && r.ledger == db.ledger
  {
    if n == 0 then db
    else
      var p := HoldLines(db, req, at, expiresAt, n - 1);
      Place(p, NewHold(req, n - 1, at[req.lines[n - 1].sku], expiresAt))
  }

  lemma {:induction false} HoldLinesRows(db: Db, req: Request, at: map<Id, Id>, expiresAt: Time, n: nat)
    requires n <= |req.lines|
    requires forall m :: 0 <= m < |req.lines| ==> req.lines[m].sku in at && at[req.lines[m].sku] in db.items
    ensures HoldLines(db, req, at, expiresAt, n).holds == db.holds + NewRows(req, at, expiresAt, n)
  {
    if n > 0 {
      HoldLinesRows(db, req, at, expiresAt, n - 1);
    }
  }

  function PlaceAll(db: Db, req: Request, at: map<Id, Id>, expiresAt: Time): (r: Db)
    requires forall m :: 0 <= m < |req.lines| ==> req.lines[m].sku in at && at[req.lines[m].sku] in db.items
    ensures r.holds == db.holds + NewRows(req, at, expiresAt, |req.lines|)
  {
    HoldLinesRows(db, req, at, expiresAt, |req.lines|);
    HoldLines(db, req, at, expiresAt, |req.lines|)
  }

  /** The loop body of reserve: one more hold, and its position's reservation grows by it. */
  function Place(db: Db, h: Hold): Db
    requires h.item in db.items
  {
    var it := db.items[h.item];
    db.(items := db.items[h.item := it.(reserved := it.reserved + h.quantity, version := it.version + 1)],
        holds := db.holds + [h])
  }

  predicate AllLocated(req: Request, at: map<Id, Id>) {
    forall n :: 0 <= n < |req.lines| ==> req.lines[n].sku in at
  }

  predicate AllCovered(items: map<Id, Item>, req: Request, at: map<Id, Id>)
    requires AllLocated(req, at) && at.Values <= items.Keys
  {
    forall n :: 0 <= n < |req.lines| ==> req.lines[n].quantity <= Available(items[at[req.lines[n].sku]])
  }

  function Gate(req: Request, cat: Catalog): Option<Refusal> {
    if req.warehouse !in cat.warehouses then Some(UnknownWarehouse)
    else if !cat.warehouses[req.warehouse] then Some(NotOperational)
    else if exists n :: 0 <= n < |req.lines| && req.lines[n].sku !in cat.skus then Some(UnknownSku)
    else if exists n :: 0 <= n < |req.lines| && !cat.skus[req.lines[n].sku] then Some(InactiveSku)
    else None
  }

  /** The part of reserve after the existence check. A request that passed that check before a rival
      created the same rows also comes here, and is stopped by uq_reservation_shipment_sku. */
  function ReserveLocked(db: Db, req: Request, cat: Catalog, window: int, now: Time): (Db, Outcome)
    requires Constraints(db) && ValidRequest(req)
  {
    if Gate(req, cat).Some? then (db, Refused(Gate(req, cat).value))
    else
      var at := Located(db.items, req.warehouse, SkuSet(req.lines));
      var (freed, swept) := Expire(db, at.Values, now);
      if swept.Refused? then (db, swept)
      else if !AllLocated(req, at) then (db, Refused(NoPosition))
      else if !AllCovered(freed.items, req, at) then (db, Refused(InsufficientStock))
      else
        var placed := PlaceAll(freed, req, at, now + window);
        if !UniqueLines(placed.holds) then (db, Refused(DuplicateLine))
        else Flushed(db, placed, Created)
  }

  function Reserve(db: Db, req: Request, cat: Catalog, window: int, now: Time): (Db, Outcome)
    requires Constraints(db) && ValidRequest(req)
  {
    var rows := ExistingRows(db.holds, req.shipment);
    if rows != [] then (db, Replay(req, rows)) else ReserveLocked(db, req, cat, window, now)
  }

  // ---------------------------------------------------------------- the other writers of stock

  /** StockService.adjust. The schema refuses a zero delta. */
  function Adjust(db: Db, position: Id, kind: MovementKind, delta: int): (Db, Outcome)
    requires Constraints(db) && delta != 0
  {
    if position !in db.items then (db, Refused(PositionNotFound))
    else
      var it := db.items[position];
      var it' := it.(onHand := it.onHand + delta, version := it.version + 1);
      Flushed(db, Db(db.items[position := it'], db.holds,
                     db.ledger + [Movement(position, it.warehouse, it.sku, kind, delta, it'.onHand, Correction)]),
              Adjusted)
  }

  /** StockService.open_position with the freshly drawn id `position`. `knownSkus` also holds deleted SKUs. */
  function OpenPosition(db: Db, position: Id, warehouse: Id, sku: Id, onHand: int, cat: Catalog,
                        knownSkus: set<Id>): (Db, Outcome)
    requires Constraints(db) && position !in db.items && onHand >= 0
  {
    if warehouse !in cat.warehouses then (db, Refused(UnknownWarehouse))
    else if !cat.warehouses[warehouse] then (db, Refused(NotOperational))
    else if sku !in knownSkus then (db, Refused(UnknownSku))
    else
      var items' := db.items[position := Item(warehouse, sku, onHand, 0, 1)];
      if !UniquePositions(items') then (db, Refused(DuplicatePosition))
      else
        (Db(items', db.holds,
            if onHand == 0 then db.ledger
            else db.ledger + [Movement(position, warehouse, sku, InboundReceipt, onHand, onHand, Opening)]),
         Opened)
  }

  // ---------------------------------------------------------------- runs

  datatype Op =
    | DoReserve(req: Request, cat: Catalog, window: int, now: Time)
    | DoReserveRaced(req: Request, cat: Catalog, window: int, now: Time)
    | DoConfirm(shipment: Id, now: Time)
    | DoCommit(shipment: Id, now: Time)
    | DoRelease(shipment: Id, now: Time)
    | DoSweep(scope: Option<set<Id>>, now: Time)
    | DoAdjust(position: Id, kind: MovementKind, delta: int)
    | DoOpen(position: Id, warehouse: Id, sku: Id, onHand: int, cat: Catalog, knownSkus: set<Id>)

  /** What callers guarantee: schema-valid payloads and fresh ids. */
  predicate Admissible(db: Db, op: Op) {
    match op
    case DoReserve(req, _, _, _) => ValidRequest(req)
    case DoReserveRaced(req, _, _, _) => ValidRequest(req)
    case DoAdjust(_, _, delta) => delta != 0
    case DoOpen(position, _, _, onHand, _, _) => position !in db.items && onHand >= 0
    case _ => true
  }

  function Apply(db: Db, op: Op): (Db, Outcome)
    requires Constraints(db) && Admissible(db, op)
  {
    match op
    case DoReserve(req, cat, window, now) => Reserve(db, req, cat, window, now)
    case DoReserveRaced(req, cat, window, now) => ReserveLocked(db, req, cat, window, now)
    case DoConfirm(s, now) => Confirm(db, s, now)
    case DoCommit(s, now) => Commit(db, s, now)
    case DoRelease(s, now) => Release(db, s, now)
    case DoSweep(scope, now) => Sweep(db, scope, now)
    case DoAdjust(position, kind, delta) => Adjust(db, position, kind, delta)
    case DoOpen(position, w, sku, onHand, cat, known) => OpenPosition(db, position, w, sku, onHand, cat, known)
  }
}
