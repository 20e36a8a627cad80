/** Inventory's tables (models.py), the constraints the database enforces on them,
    and the sums that stock positions, holds and the ledger are compared by.

    Sums over holds are taken by a filter, which gives each row its weight; sums over the ledger likewise. */
module StockTables {
  import opened Common

  datatype Item = Item(warehouse: Id, sku: Id, onHand: int, reserved: int, version: int)

  datatype Status = Held | Committed | Released

  datatype Hold = Hold(item: Id, shipment: Id, warehouse: Id, sku: Id, quantity: int, status: Status,
                       expiresAt: Option<Time>, confirmedAt: Option<Time>,
                       committedAt: Option<Time>, releasedAt: Option<Time>)

  datatype MovementKind =
    | InboundReceipt | OutboundDispatch | ReturnReceipt | CountAdjustment
    | DamageWriteOff | TransferIn | TransferOut

  datatype Reference = Opening | Correction | ForShipment(shipment: Id)

  datatype Movement = Movement(item: Id, warehouse: Id, sku: Id, kind: MovementKind,
                               delta: int, resulting: int, reference: Reference)

  /** `holds` and `ledger` are append-only tables in insertion order; a row's index is its id. */
  datatype Db = Db(items: map<Id, Item>, holds: seq<Hold>, ledger: seq<Movement>)

  const EMPTY := Db(map[], [], [])

  // ---------------------------------------------------------------- constraints

  predicate ItemChecks(i: Item) {
    i.onHand >= 0 && i.reserved >= 0 && i.reserved <= i.onHand
  }

  predicate HoldChecks(h: Hold) {
    h.quantity > 0 && (h.status == Held ==> h.confirmedAt.Some? || h.expiresAt.Some?)
  }

  predicate AllItemChecks(items: map<Id, Item>) {
    forall i :: i in items ==> ItemChecks(items[i])
  }

  /** uq_inventory_warehouse_sku */
  predicate UniquePositions(items: map<Id, Item>) {
    forall i, j :: i in items && j in items && items[i].warehouse == items[j].warehouse && items[i].sku == items[j].sku
                   ==> i == j
  }

  /** uq_reservation_shipment_sku */
  predicate UniqueLines(holds: seq<Hold>) {
    forall j, k :: 0 <= j < k < |holds| ==> holds[j].shipment != holds[k].shipment || holds[j].sku != holds[k].sku
  }

  /** Everything the database itself refuses to break: checks, keys and foreign keys. */
  predicate Constraints(db: Db) {
    RowConstraints(db) && UniqueLines(db.holds)
  }

  /** All constraints but uq_reservation_shipment_sku, the one that speaks of pairs of holds. */
  predicate RowConstraints(db: Db) {
    && AllItemChecks(db.items)
    && UniquePositions(db.items)
    && (forall k :: 0 <= k < |db.holds| ==> HoldChecks(db.holds[k]) && db.holds[k].item in db.items)
    && (forall k :: 0 <= k < |db.ledger| ==> db.ledger[k].delta != 0 && db.ledger[k].item in db.items)
  }

  // ---------------------------------------------------------------- which rows a statement selects

  datatype Pick =
    | HeldFor(shipment: Id)                     // a shipment's HELD rows
    | LapsedOn(positions: set<Id>, now: Time)   // HELD, unconfirmed, expires_at <= now, on these positions

  predicate Picks(p: Pick, h: Hold) {
    match p
    case HeldFor(s) => h.shipment == s && h.status == Held
    case LapsedOn(positions, now) => h.item in positions && Lapsed(h, now)
  }

  predicate Lapsed(h: Hold, now: Time) {
    h.status == Held && h.confirmedAt.None? && h.expiresAt.Some? && h.expiresAt.value <= now
  }

  // ---------------------------------------------------------------- sums over holds

  datatype Filter =
    | InStatus(item: Id, status: Status)
    | AnyStatus(item: Id)
    | ForShipmentIn(item: Id, shipment: Id, status: Status)
    | LiveOn(item: Id, now: Time)      // HELD and (confirmed or not yet expired)
    | PickedOn(item: Id, pick: Pick)
    | CountPicked(item: Id, pick: Pick)

  /** What one hold row contributes to a sum. */
  function Weight(f: Filter, h: Hold): int {
    match f
    case InStatus(i, s) => if h.item == i && h.status == s then h.quantity else 0
    case AnyStatus(i) => if h.item == i then h.quantity else 0
    case ForShipmentIn(i, s, st) => if h.item == i && h.shipment == s && h.status == st then h.quantity else 0
    case LiveOn(i, now) => if h.item == i && h.status == Held && !Lapsed(h, now) then h.quantity else 0
    case PickedOn(i, p) => if h.item == i && Picks(p, h) then h.quantity else 0
    case CountPicked(i, p) => if h.item == i && Picks(p, h) then 1 else 0
  }

  function Total(holds: seq<Hold>, f: Filter): int {
    if holds == [] then 0 else Total(holds[..|holds| - 1], f) + Weight(f, holds[|holds| - 1])
  }

  lemma TotalSnoc(holds: seq<Hold>, h: Hold, f: Filter)
    ensures Total(holds + [h], f) == Total(holds, f) + Weight(f, h)
  {
    assert (holds + [h])[..|holds|] == holds;
  }

  /** Rewriting one row moves a sum by the difference of that row's weights. */
  lemma {:induction false} TotalUpdate(holds: seq<Hold>, k: nat, h: Hold, f: Filter)
    requires k < |holds|
    ensures Total(holds[k := h], f) == Total(holds, f) - Weight(f, holds[k]) + Weight(f, h)
  {
    var n := |holds| - 1;
    if k == n {
      assert holds[k := h][..n] == holds[..n];
    } else {
      TotalUpdate(holds[..n], k, h, f);
      assert holds[k := h][..n] == holds[..n][k := h];
    }
  }

  /** If every row's f-weight drops by its g-weight, the f-sum drops by the g-sum. */
  lemma {:induction false} TotalDrops(before: seq<Hold>, after: seq<Hold>, f: Filter, g: Filter)
    requires |before| == |after|
    requires forall k :: 0 <= k < |before| ==> Weight(f, after[k]) == Weight(f, before[k]) - Weight(g, before[k])
    ensures Total(after, f) == Total(before, f) - Total(before, g)
  {
    if before != [] {
      var n := |before| - 1;
      TotalDrops(before[..n], after[..n], f, g);
    }
  }

  /** Sums agree when every row weighs the same under both filters. */
  lemma {:induction false} TotalAgrees(holds: seq<Hold>, f: Filter, g: Filter)
    requires forall k :: 0 <= k < |holds| ==> Weight(f, holds[k]) == Weight(g, holds[k])
    ensures Total(holds, f) == Total(holds, g)
  {
    if holds != [] {
      TotalAgrees(holds[..|holds| - 1], f, g);
    }
  }

  /** A sum of non-negative weights bounds each of its terms. */
  lemma {:induction false} TotalBounds(holds: seq<Hold>, f: Filter, k: nat)
    requires forall j :: 0 <= j < |holds| ==> Weight(f, holds[j]) >= 0
    requires k < |holds|
    ensures Total(holds, f) >= Weight(f, holds[k])
    decreases |holds|
  {
    var n := |holds| - 1;
    if k < n {
      TotalBounds(holds[..n], f, k);
    } else {
      TotalNonNegative(holds[..n], f);
    }
  }

  lemma {:induction false} TotalNonNegative(holds: seq<Hold>, f: Filter)
    requires forall j :: 0 <= j < |holds| ==> Weight(f, holds[j]) >= 0
    ensures Total(holds, f) >= 0
  {
    if holds != [] {
      TotalNonNegative(holds[..|holds| - 1], f);
    }
  }

  // ---------------------------------------------------------------- sums over the ledger

  datatype LedgerFilter =
    | OnItem(item: Id)
    | DispatchedOn(item: Id)                   // dispatch rows written for shipments
    | DispatchedFor(item: Id, shipment: Id)

  function Entry(f: LedgerFilter, m: Movement): int {
    match f
    case OnItem(i) => if m.item == i then m.delta else 0
    case DispatchedOn(i) => if m.item == i && m.kind == OutboundDispatch && m.reference.ForShipment? then m.delta else 0
    case DispatchedFor(i, s) =>
      if m.item == i && m.kind == OutboundDispatch && m.reference == ForShipment(s) then m.delta else 0
  }

  function Balance(ledger: seq<Movement>, f: LedgerFilter): int {
    if ledger == [] then 0 else Balance(ledger[..|ledger| - 1], f) + Entry(f, ledger[|ledger| - 1])
  }

  lemma BalanceSnoc(ledger: seq<Movement>, m: Movement, f: LedgerFilter)
    ensures Balance(ledger + [m], f) == Balance(ledger, f) + Entry(f, m)
  {
    assert (ledger + [m])[..|ledger|] == ledger;
  }
}
