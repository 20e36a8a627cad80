/** What each stock transaction decides and does to every row: answers, refusals, sweeping, and what a reserve takes. */
module StockEffects {
  import opened Common
  import opened StockTables
  import opened StockOps
  import opened StockInvariant

  // ---------------------------------------------------------------- row by row

  function TouchedRow(act: Act, h: Hold, now: Time): Hold {
    match act
    case Confirming => if h.confirmedAt.None? then h.(confirmedAt := Some(now), expiresAt := None) else h
    case Committing => h.(status := Committed, committedAt := Some(now))
    case Releasing => h.(status := Released, releasedAt := Some(now))
  }

  /** A statement rewrites exactly the rows it picked, each once. */
  lemma {:induction false} TouchUpToRows(db: Db, pick: Pick, act: Act, now: Time, bound: nat)
    requires ItemsExist(db) && bound <= |db.holds|
    ensures forall k :: 0 <= k < bound ==>
              TouchUpTo(db, pick, act, now, bound).holds[k] ==
              if Picks(pick, db.holds[k]) then TouchedRow(act, db.holds[k], now) else db.holds[k]
  {
    if bound > 0 {
      TouchUpToRows(db, pick, act, now, bound - 1);
    }
  }

  function TouchedItem(act: Act, it: Item, quantity: int, rows: int): Item {
    match act
    case Confirming => it
    case Committing => it.(onHand := it.onHand - quantity, reserved := it.reserved - quantity,
                           version := it.version + rows)
    case Releasing => it.(reserved := it.reserved - quantity, version := it.version + rows)
  }

  lemma TouchItem(db: Db, act: Act, k: nat, now: Time, i: Id)
    requires ItemsExist(db) && k < |db.holds| && i in db.items
    ensures Touch(db, act, k, now).items[i] ==
            TouchedItem(act, db.items[i], if db.holds[k].item == i then db.holds[k].quantity else 0,
                        if db.holds[k].item == i then 1 else 0)
  {
  }

  /** A statement moves each position by the total of the rows picked on it. */
  lemma {:induction false} TouchUpToItem(db: Db, pick: Pick, act: Act, now: Time, bound: nat, i: Id)
    requires ItemsExist(db) && bound <= |db.holds| && i in db.items
    ensures TouchUpTo(db, pick, act, now, bound).items[i] ==
            TouchedItem(act, db.items[i], Total(db.holds[..bound], PickedOn(i, pick)),
                        Total(db.holds[..bound], CountPicked(i, pick)))
  {
    if bound > 0 {
      var h := db.holds[bound - 1];
      assert db.holds[..bound] == db.holds[..bound - 1] + [h];
      TotalSnoc(db.holds[..bound - 1], h, PickedOn(i, pick));
      TotalSnoc(db.holds[..bound - 1], h, CountPicked(i, pick));
      TouchUpToItem(db, pick, act, now, bound - 1, i);
      if Picks(pick, h) {
        TouchItem(TouchUpTo(db, pick, act, now, bound - 1), act, bound - 1, now, i);
      }
    }
  }

  lemma TouchAllIs(db: Db, pick: Pick, act: Act, now: Time)
    requires ItemsExist(db)
    ensures forall k :: 0 <= k < |db.holds| ==>
              TouchAll(db, pick, act, now).holds[k] ==
              if Picks(pick, db.holds[k]) then TouchedRow(act, db.holds[k], now) else db.holds[k]
    ensures forall i :: i in db.items ==>
              TouchAll(db, pick, act, now).items[i] ==
              TouchedItem(act, db.items[i], Total(db.holds, PickedOn(i, pick)), Total(db.holds, CountPicked(i, pick)))
    ensures act != Committing ==> TouchAll(db, pick, act, now).ledger == db.ledger
  {
    TouchUpToRows(db, pick, act, now, |db.holds|);
    assert db.holds[..|db.holds|] == db.holds;
    forall i | i in db.items
      ensures TouchAll(db, pick, act, now).items[i] ==
              TouchedItem(act, db.items[i], Total(db.holds, PickedOn(i, pick)), Total(db.holds, CountPicked(i, pick)))
    {
      TouchUpToItem(db, pick, act, now, |db.holds|, i);
    }
    LedgerUntouched(db, pick, act, now, |db.holds|);
  }

  lemma {:induction false} LedgerUntouched(db: Db, pick: Pick, act: Act, now: Time, bound: nat)
    requires ItemsExist(db) && bound <= |db.holds|
    ensures act != Committing ==> TouchUpTo(db, pick, act, now, bound).ledger == db.ledger
  {
    if bound > 0 {
      LedgerUntouched(db, pick, act, now, bound - 1);
    }
  }

  // ---------------------------------------------------------------- the three statements in full

  /** A statement only appends to the ledger: one row per row it commits. */
  lemma {:induction false} TouchUpToLedger(db: Db, pick: Pick, act: Act, now: Time, bound: nat)
    requires ItemsExist(db) && bound <= |db.holds|
    ensures db.ledger <= TouchUpTo(db, pick, act, now, bound).ledger
    ensures |TouchUpTo(db, pick, act, now, bound).ledger| ==
            |db.ledger| + if act == Committing then CountPicks(db.holds[..bound], pick) else 0
  {
    if bound > 0 {
      TouchUpToLedger(db, pick, act, now, bound - 1);
      assert db.holds[..bound][..bound - 1] == db.holds[..bound - 1];
    }
  }

  /** A confirmed shipment's HELD rows can never lapse; quantities, statuses, positions and the ledger are as before. */
  lemma ConfirmStopsExpiry(db: Db, s: Id, now: Time, later: Time)
    requires Constraints(db)
    ensures var (after, outcome) := Confirm(db, s, now);
            && after.items == db.items && after.ledger == db.ledger && |after.holds| == |db.holds|
            && outcome == Moved(CountPicks(db.holds, HeldFor(s)))
            && forall k :: 0 <= k < |db.holds| ==>
                 var h, g := db.holds[k], after.holds[k];
                 if h.shipment == s && h.status == Held then
                   && g.confirmedAt == (if h.confirmedAt.Some? then h.confirmedAt else Some(now))
                   && g.expiresAt == (if h.confirmedAt.Some? then h.expiresAt else None)
                   && g == h.(confirmedAt := g.confirmedAt, expiresAt := g.expiresAt) && !Lapsed(g, later)
                 else g == h
  {
    TouchAllIs(db, HeldFor(s), Confirming, now);
    ConfirmLeavesPositions(db, HeldFor(s), now, |db.holds|);
  }

  lemma {:induction false} ConfirmLeavesPositions(db: Db, pick: Pick, now: Time, bound: nat)
    requires ItemsExist(db) && bound <= |db.holds|
    ensures TouchUpTo(db, pick, Confirming, now, bound).items == db.items
  {
    if bound > 0 {
      ConfirmLeavesPositions(db, pick, now, bound - 1);
    }
  }

  /** A commit in full: which rows it marks and when, how versions and the ledger grow, and its three answers. */
  lemma CommitMarks(db: Db, s: Id, now: Time)
    requires Inv(db)
    ensures var (after, outcome) := Commit(db, s, now);
            var n := CountPicks(db.holds, HeldFor(s));
            && outcome == (if n > 0 || HasRow(db.holds, s, Committed) then Moved(n) else Refused(NothingToCommit))
            && |after.holds| == |db.holds| && after.items.Keys == db.items.Keys
            && (forall k :: 0 <= k < |db.holds| ==>
                  after.holds[k] == if db.holds[k].shipment == s && db.holds[k].status == Held
                                    then db.holds[k].(status := Committed, committedAt := Some(now)) else db.holds[k])
            && db.ledger <= after.ledger && |after.ledger| == |db.ledger| + n
            && (forall i :: i in db.items ==>
                  after.items[i].version == db.items[i].version + Total(db.holds, CountPicked(i, HeldFor(s))))
  {
    TouchUpToKeepsInv(db, HeldFor(s), Committing, now, |db.holds|);
    TouchAllIs(db, HeldFor(s), Committing, now);
    TouchUpToLedger(db, HeldFor(s), Committing, now, |db.holds|);
    assert db.holds[..|db.holds|] == db.holds;
    if CountPicks(db.holds, HeldFor(s)) == 0 {
      NothingCounted(db.holds, s);
    }
  }

  lemma {:induction false} NothingCounted(holds: seq<Hold>, s: Id)
    requires CountPicks(holds, HeldFor(s)) == 0
    ensures forall k :: 0 <= k < |holds| ==> !Picks(HeldFor(s), holds[k])
    ensures forall i :: Total(holds, CountPicked(i, HeldFor(s))) == 0
  {
    if holds != [] {
      NothingCounted(holds[..|holds| - 1], s);
      assert forall k :: 0 <= k < |holds| - 1 ==> holds[..|holds| - 1][k] == holds[k];
    }
  }

  /** A release in full: it marks the shipment's HELD rows and writes nothing to the ledger. */
  lemma ReleaseMarks(db: Db, s: Id, now: Time)
    requires Inv(db)
    ensures var (after, outcome) := Release(db, s, now);
            && outcome == Moved(CountPicks(db.holds, HeldFor(s)))
            && |after.holds| == |db.holds| && after.ledger == db.ledger && after.items.Keys == db.items.Keys
            && (forall k :: 0 <= k < |db.holds| ==>
                  after.holds[k] == if db.holds[k].shipment == s && db.holds[k].status == Held
                                    then db.holds[k].(status := Released, releasedAt := Some(now)) else db.holds[k])
            && (forall i :: i in db.items ==>
                  after.items[i].version == db.items[i].version + Total(db.holds, CountPicked(i, HeldFor(s))))
  {
    TouchUpToKeepsInv(db, HeldFor(s), Releasing, now, |db.holds|);
    TouchAllIs(db, HeldFor(s), Releasing, now);
  }

  // ---------------------------------------------------------------- who can be refused by the item checks

  /** The item checks reject an adjustment below what is held, and nothing else, ever. */
  lemma OnlyAdjustHitsItemChecks(db: Db, op: Op)
    requires Inv(db) && Admissible(db, op)
    ensures Apply(db, op).1 == Refused(ItemCheckViolated) <==>
            op.DoAdjust? && op.position in db.items
            && db.items[op.position].onHand + op.delta < db.items[op.position].reserved
  {
    match op
    case DoReserve(req, cat, window, now) => ReserveLockedIs(db, req, cat, window, now);
    case DoReserveRaced(req, cat, window, now) => ReserveLockedIs(db, req, cat, window, now);
    case DoCommit(s, now) => TouchUpToKeepsInv(db, HeldFor(s), Committing, now, |db.holds|);
    case DoRelease(s, now) => TouchUpToKeepsInv(db, HeldFor(s), Releasing, now, |db.holds|);
    case DoSweep(scope, now) => ExpireKeepsInv(db, SweepPositions(db, scope, now), now);
    case DoAdjust(position, kind, delta) =>
      if position in db.items {
        AdjustRefusedIff(db, position, kind, delta);
      }
    case _ =>
  }

  lemma AdjustRefusedIff(db: Db, position: Id, kind: MovementKind, delta: int)
    requires Constraints(db) && delta != 0 && position in db.items
    ensures Adjust(db, position, kind, delta).1 == Refused(ItemCheckViolated) <==>
            db.items[position].onHand + delta < db.items[position].reserved
  {
    var it := db.items[position];
    var items' := db.items[position := it.(onHand := it.onHand + delta, version := it.version + 1)];
    assert items'[position].onHand == it.onHand + delta;
    assert ItemChecks(it);
    if it.onHand + delta >= it.reserved {
      assert AllItemChecks(items');
    }
  }

  /** An accepted correction, field by field: the position's stock moves by the delta and one ledger row says so. */
  lemma AdjustMoves(db: Db, position: Id, kind: MovementKind, delta: int)
    requires Constraints(db) && delta != 0 && Adjust(db, position, kind, delta).1.Adjusted?
    ensures position in db.items
    ensures var after, was := Adjust(db, position, kind, delta).0, db.items[position];
            && after.items.Keys == db.items.Keys
            && after.items[position] == Item(was.warehouse, was.sku, was.onHand + delta, was.reserved, was.version + 1)
            && (forall i :: i in db.items && i != position ==> after.items[i] == db.items[i])
            && after.holds == db.holds
            && after.ledger == db.ledger + [Movement(position, was.warehouse, was.sku, kind, delta, was.onHand + delta,
                                                     Correction)]
  {
  }

  /** A new position, field by field: it has its opening stock, unreserved, and one ledger row for it unless it is
      zero. */
  lemma OpenAdds(db: Db, position: Id, warehouse: Id, sku: Id, onHand: int, cat: Catalog, knownSkus: set<Id>)
    requires Constraints(db) && position !in db.items && onHand >= 0
    requires OpenPosition(db, position, warehouse, sku, onHand, cat, knownSkus).1.Opened?
    ensures var after := OpenPosition(db, position, warehouse, sku, onHand, cat, knownSkus).0;
            && after.items.Keys == db.items.Keys + {position}
            && after.items[position] == Item(warehouse, sku, onHand, 0, 1)
            && (forall i :: i in db.items ==> after.items[i] == db.items[i])
            && after.holds == db.holds
            && |after.ledger| == |db.ledger| + (if onHand == 0 then 0 else 1)
            && db.ledger <= after.ledger
            && (onHand != 0 ==> after.ledger[|db.ledger|] ==
                                Movement(position, warehouse, sku, InboundReceipt, onHand, onHand, Opening))
  {
  }

  /** When a position cannot be opened, in the order the code finds out. */
  lemma OpenDecides(db: Db, position: Id, warehouse: Id, sku: Id, onHand: int, cat: Catalog, knownSkus: set<Id>)
    requires Constraints(db) && position !in db.items && onHand >= 0
    ensures var (after, outcome) := OpenPosition(db, position, warehouse, sku, onHand, cat, knownSkus);
            && (!outcome.Opened? ==> after == db)
            && outcome ==
               if warehouse !in cat.warehouses then Refused(UnknownWarehouse)
               else if !cat.warehouses[warehouse] then Refused(NotOperational)
               else if sku !in knownSkus then Refused(UnknownSku)
               else if exists i :: IsPosition(db.items, warehouse, sku, i) then Refused(DuplicatePosition)
               else Opened
  {
    var items := db.items[position := Item(warehouse, sku, onHand, 0, 1)];
    if i :| IsPosition(db.items, warehouse, sku, i) {
      assert items[i].warehouse == items[position].warehouse && items[i].sku == items[position].sku && i != position;
    } else {
      forall i, j | i in items && j in items && items[i].warehouse == items[j].warehouse && items[i].sku == items[j].sku
        ensures i == j
      {
        assert !IsPosition(db.items, warehouse, sku, i) && !IsPosition(db.items, warehouse, sku, j);
      }
    }
  }

  // ---------------------------------------------------------------- sweeping

  /** A sweep clears its scope of lapsed holds, frees exactly their quantities, and leaves other warehouses alone. */
  lemma SweepIsCompleteAndConfined(db: Db, scope: Option<set<Id>>, now: Time)
    requires Inv(db)
    ensures var after := Sweep(db, scope, now).0;
            && |after.holds| == |db.holds| && after.items.Keys == db.items.Keys && after.ledger == db.ledger
            && (forall k :: 0 <= k < |db.holds| ==>
                  after.holds[k] ==
                  if Lapsed(db.holds[k], now) && InScope(scope, db.holds[k].warehouse)
                  then db.holds[k].(status := Released, releasedAt := Some(now)) else db.holds[k])
            && (forall i :: i in db.items ==>
                  && after.items[i].onHand == db.items[i].onHand
                  && after.items[i].reserved ==
                     db.items[i].reserved
                     - if InScope(scope, db.items[i].warehouse) then Total(db.holds, PickedOn(i, LapsedOn({i}, now)))
                     else 0)
            && (forall i :: i in db.items && !InScope(scope, db.items[i].warehouse) ==> after.items[i] == db.items[i])
            && (forall k :: 0 <= k < |after.holds| && InScope(scope, after.holds[k].warehouse) ==>
                  !Lapsed(after.holds[k], now))
  {
    var positions := SweepPositions(db, scope, now);
    var pick := LapsedOn(positions, now);
    ExpireKeepsInv(db, positions, now);
    TouchAllIs(db, pick, Releasing, now);
    SweepPicks(db, scope, now);
    forall i | i in db.items
      ensures Total(db.holds, PickedOn(i, pick)) ==
              if InScope(scope, db.items[i].warehouse) then Total(db.holds, PickedOn(i, LapsedOn({i}, now))) else 0
      ensures !InScope(scope, db.items[i].warehouse) ==> Total(db.holds, CountPicked(i, pick)) == 0
    {
      if InScope(scope, db.items[i].warehouse) {
        TotalAgrees(db.holds, PickedOn(i, pick), PickedOn(i, LapsedOn({i}, now)));
      } else {
        NothingPicked(db.holds, i, pick);
      }
    }
  }

  /** A sweep answers how many holds it released. */
  lemma SweepCounts(db: Db, scope: Option<set<Id>>, now: Time)
    requires Inv(db)
    ensures Sweep(db, scope, now).1 ==
            Moved(|set k | 0 <= k < |db.holds| && Lapsed(db.holds[k], now) && InScope(scope, db.holds[k].warehouse)|)
  {
    var pick := LapsedOn(SweepPositions(db, scope, now), now);
    ExpireKeepsInv(db, SweepPositions(db, scope, now), now);
    SweepPicks(db, scope, now);
    CountIsSize(db.holds, pick);
    assert (set k | 0 <= k < |db.holds| && Picks(pick, db.holds[k])) ==
           (set k | 0 <= k < |db.holds| && Lapsed(db.holds[k], now) && InScope(scope, db.holds[k].warehouse));
  }

  /** A statement's count is the number of rows it picks. */
  lemma {:induction false} CountIsSize(holds: seq<Hold>, pick: Pick)
    ensures CountPicks(holds, pick) == |set k | 0 <= k < |holds| && Picks(pick, holds[k])|
  {
    if holds != [] {
      var n := |holds| - 1;
      CountIsSize(holds[..n], pick);
      var before := set k | 0 <= k < n && Picks(pick, holds[..n][k]);
      assert (set k | 0 <= k < |holds| && Picks(pick, holds[k])) ==
               before + (if Picks(pick, holds[n]) then {n} else {});
    }
  }

  predicate InScope(scope: Option<set<Id>>, warehouse: Id) {
    scope.None? || warehouse in scope.value
  }

  /** Holds agree with their positions on the warehouse, so choosing positions chooses exactly the lapsed holds in
      scope. */
  lemma SweepPicks(db: Db, scope: Option<set<Id>>, now: Time)
    requires Inv(db)
    ensures forall k :: 0 <= k < |db.holds| ==>
              (Picks(LapsedOn(SweepPositions(db, scope, now), now), db.holds[k]) <==>
               Lapsed(db.holds[k], now) && InScope(scope, db.holds[k].warehouse))
  {
    var positions := SweepPositions(db, scope, now);
    forall k | 0 <= k < |db.holds|
      ensures Picks(LapsedOn(positions, now), db.holds[k]) <==>
              Lapsed(db.holds[k], now) && InScope(scope, db.holds[k].warehouse)
    {
      if Picks(LapsedOn(positions, now), db.holds[k]) {
        var j :| 0 <= j < |db.holds| && Lapsed(db.holds[j], now) && InScope(scope, db.holds[j].warehouse)
                 && db.holds[j].item == db.holds[k].item;
        assert db.holds[j].warehouse == db.holds[k].warehouse;
      }
    }
  }

  lemma {:induction false} NothingPicked(holds: seq<Hold>, i: Id, pick: Pick)
    requires forall k :: 0 <= k < |holds| && holds[k].item == i ==> !Picks(pick, holds[k])
    ensures Total(holds, PickedOn(i, pick)) == 0 && Total(holds, CountPicked(i, pick)) == 0
  {
    if holds != [] {
      NothingPicked(holds[..|holds| - 1], i, pick);
    }
  }

  // ---------------------------------------------------------------- the stock check of reserve

  lemma {:induction false} TotalSplits(holds: seq<Hold>, f: Filter, g: Filter, h: Filter)
    requires forall k :: 0 <= k < |holds| ==> Weight(f, holds[k]) == Weight(g, holds[k]) + Weight(h, holds[k])
    ensures Total(holds, f) == Total(holds, g) + Total(holds, h)
  {
    if holds != [] {
      TotalSplits(holds[..|holds| - 1], f, g, h);
    }
  }

  /** The position of a SKU at a warehouse. */
  ghost predicate IsPosition(items: map<Id, Item>, warehouse: Id, sku: Id, i: Id) {
    i in items && items[i].warehouse == warehouse && items[i].sku == sku
  }

  /** The stock a line may take at `now`: on hand less the holds that are confirmed or have not yet expired. */
  ghost function Takeable(db: Db, i: Id, now: Time): int
    requires i in db.items
  {
    db.items[i].onHand - Total(db.holds, LiveOn(i, now))
  }

  ghost predicate HasPosition(db: Db, req: Request, n: nat)
    requires n < |req.lines|
  {
    exists i :: IsPosition(db.items, req.warehouse, req.lines[n].sku, i)
  }

  ghost predicate LineFits(db: Db, req: Request, n: nat, now: Time)
    requires n < |req.lines|
  {
    exists i :: IsPosition(db.items, req.warehouse, req.lines[n].sku, i)
      && req.lines[n].quantity <= Takeable(db, i, now)
  }

  ghost predicate AllHavePositions(db: Db, req: Request) {
    forall n :: 0 <= n < |req.lines| ==> HasPosition(db, req, n)
  }

  ghost predicate AllFit(db: Db, req: Request, now: Time) {
    forall n :: 0 <= n < |req.lines| ==> LineFits(db, req, n, now)
  }

  /** Some line's SKU is already on the shipment's books. */
  ghost predicate AlreadyListed(holds: seq<Hold>, req: Request) {
    exists k, n :: 0 <= k < |holds| && 0 <= n < |req.lines| && holds[k].shipment == req.shipment
      && holds[k].sku == req.lines[n].sku
  }

  lemma FreedLeavesTakeable(db: Db, req: Request, now: Time, i: Id)
    requires Inv(db) && i in LocatedFor(db, req).Values
    ensures i in db.items && i in Freed(db, req, now).items
    ensures Available(Freed(db, req, now).items[i]) == Takeable(db, i, now)
    ensures Freed(db, req, now).items[i] ==
            TouchedItem(Releasing, db.items[i],
                        Total(db.holds, PickedOn(i, LapsedOn({i}, now))),
                        Total(db.holds, CountPicked(i, LapsedOn({i}, now))))
  {
    var pick := LapsedOn(LocatedFor(db, req).Values, now);
    TouchAllIs(db, pick, Releasing, now);
    assert PositionBooked(db, i);
    TotalAgrees(db.holds, PickedOn(i, pick), PickedOn(i, LapsedOn({i}, now)));
    TotalAgrees(db.holds, CountPicked(i, pick), CountPicked(i, LapsedOn({i}, now)));
    TotalSplits(db.holds, InStatus(i, Held), LiveOn(i, now), PickedOn(i, LapsedOn({i}, now)));
  }

  /** Appending one shipment's rows for distinct SKUs keeps lines unique exactly when none of the SKUs was listed. */
  lemma AppendUniqueIff(prior: seq<Hold>, added: seq<Hold>, req: Request)
    requires UniqueLines(prior) && ValidRequest(req) && |added| == |req.lines|
    requires forall m :: 0 <= m < |added| ==> added[m].shipment == req.shipment && added[m].sku == req.lines[m].sku
    ensures UniqueLines(prior + added) <==> !AlreadyListed(prior, req)
  {
    var all := prior + added;
    if AlreadyListed(prior, req) {
      var k, m :| 0 <= k < |prior| && 0 <= m < |req.lines| && prior[k].shipment == req.shipment
      && prior[k].sku == req.lines[m].sku;
      assert all[k] == prior[k] && all[|prior| + m] == added[m];
    } else {
      forall j, k | 0 <= j < k < |all| ensures all[j].shipment != all[k].shipment || all[j].sku != all[k].sku {
        if k >= |prior| {
          assert all[k] == added[k - |prior|];
          if j >= |prior| {
            assert all[j] == added[j - |prior|];
          }
        }
      }
    }
  }

  lemma AlreadyListedAgrees(a: seq<Hold>, b: seq<Hold>, req: Request)
    requires |a| == |b| && forall k :: 0 <= k < |a| ==> a[k].shipment == b[k].shipment && a[k].sku == b[k].sku
    ensures AlreadyListed(a, req) ==> AlreadyListed(b, req)
  {
  }

  lemma {:induction false} NewRowsAre(req: Request, at: map<Id, Id>, expiresAt: Time, n: nat)
    requires n <= |req.lines| && forall m :: 0 <= m < |req.lines| ==> req.lines[m].sku in at
    ensures forall m :: 0 <= m < n ==>
              NewRows(req, at, expiresAt, n)[m] == NewHold(req, m, at[req.lines[m].sku], expiresAt)
  {
    if n > 0 {
      NewRowsAre(req, at, expiresAt, n - 1);
    }
  }

  lemma PlacedUniqueIff(freed: Db, req: Request, at: map<Id, Id>, expiresAt: Time)
    requires UniqueLines(freed.holds) && ValidRequest(req)
    requires forall m :: 0 <= m < |req.lines| ==> req.lines[m].sku in at && at[req.lines[m].sku] in freed.items
    ensures UniqueLines(PlaceAll(freed, req, at, expiresAt).holds) == !AlreadyListed(freed.holds, req)
  {
    var added := NewRows(req, at, expiresAt, |req.lines|);
    NewRowsAre(req, at, expiresAt, |req.lines|);
    AppendUniqueIff(freed.holds, added, req);
  }

  lemma FreedListsTheSame(db: Db, req: Request, now: Time)
    requires Inv(db)
    ensures UniqueLines(Freed(db, req, now).holds)
    ensures AlreadyListed(Freed(db, req, now).holds, req) <==> AlreadyListed(db.holds, req)
  {
    var freed := Freed(db, req, now);
    FreedIsReady(db, req, now);
    TouchUpToRows(db, LapsedOn(LocatedFor(db, req).Values, now), Releasing, now, |db.holds|);
    AlreadyListedAgrees(db.holds, freed.holds, req);
    AlreadyListedAgrees(freed.holds, db.holds, req);
  }

  /** The decision of reserve, in terms of the tables it started from. */
  lemma ReserveDecides(db: Db, req: Request, cat: Catalog, window: int, now: Time)
    requires Inv(db) && ValidRequest(req)
    ensures ReserveLocked(db, req, cat, window, now).1 ==
            if Gate(req, cat).Some? then Refused(Gate(req, cat).value)
            else if !AllHavePositions(db, req) then Refused(NoPosition)
            else if !AllFit(db, req, now) then Refused(InsufficientStock)
            else if AlreadyListed(db.holds, req) then Refused(DuplicateLine)
            else Created
  {
    ReserveLockedIs(db, req, cat, window, now);
    LocatedLines(db, req);
    assert AllLocated(req, LocatedFor(db, req)) == AllHavePositions(db, req);
    if AllLocated(req, LocatedFor(db, req)) {
      CoveredIff(db, req, now);
      PlacementUniqueIff(db, req, window, now);
    }
  }

  /** A reserve of a shipment without rows is refused for its warehouse or its SKUs exactly in these cases, so what it
      accepts is in an operational warehouse and all of active SKUs. */
  lemma ReserveNeedsTheCatalog(db: Db, req: Request, cat: Catalog, window: int, now: Time)
    requires Inv(db) && ValidRequest(req)
    ensures var outcome := ReserveLocked(db, req, cat, window, now).1;
            var operational := req.warehouse in cat.warehouses && cat.warehouses[req.warehouse];
            var known := forall n :: 0 <= n < |req.lines| ==> req.lines[n].sku in cat.skus;
            && (outcome == Refused(UnknownWarehouse) <==> req.warehouse !in cat.warehouses)
            && (outcome == Refused(NotOperational) <==> req.warehouse in cat.warehouses && !operational)
            && (outcome == Refused(UnknownSku) <==> operational && !known)
            && (outcome == Refused(InactiveSku) <==>
                operational && known && exists n :: 0 <= n < |req.lines| && !cat.skus[req.lines[n].sku])
            && (outcome.Created? ==> operational && known && forall n :: 0 <= n < |req.lines| ==>
                  cat.skus[req.lines[n].sku])
  {
    ReserveDecides(db, req, cat, window, now);
  }

  lemma PlacementUniqueIff(db: Db, req: Request, window: int, now: Time)
    requires Inv(db) && ValidRequest(req) && AllLocated(req, LocatedFor(db, req))
    requires LocatedFor(db, req).Values <= Freed(db, req, now).items.Keys
    ensures UniqueLines(PlaceAll(Freed(db, req, now), req, LocatedFor(db, req), now + window).holds) ==
            !AlreadyListed(db.holds, req)
  {
    FreedListsTheSame(db, req, now);
    PlacedUniqueIff(Freed(db, req, now), req, LocatedFor(db, req), now + window);
  }

  lemma LocatedLines(db: Db, req: Request)
    requires Constraints(db)
    ensures forall n :: 0 <= n < |req.lines| ==> (req.lines[n].sku in LocatedFor(db, req) <==> HasPosition(db, req, n))
    ensures forall n :: 0 <= n < |req.lines| && req.lines[n].sku in LocatedFor(db, req) ==>
              IsPosition(db.items, req.warehouse, req.lines[n].sku, LocatedFor(db, req)[req.lines[n].sku])
  {
    LocatedIsExact(db.items, req.warehouse, SkuSet(req.lines));
    forall n | 0 <= n < |req.lines| ensures req.lines[n].sku in LocatedFor(db, req) <==> HasPosition(db, req, n) {
      assert req.lines[n].sku in SkuSet(req.lines);
      if HasPosition(db, req, n) {
        var i :| IsPosition(db.items, req.warehouse, req.lines[n].sku, i);
      } else if req.lines[n].sku in LocatedFor(db, req) {
        assert IsPosition(db.items, req.warehouse, req.lines[n].sku, LocatedFor(db, req)[req.lines[n].sku]);
      }
    }
  }

  lemma CoveredIff(db: Db, req: Request, now: Time)
    requires Inv(db) && AllLocated(req, LocatedFor(db, req))
    ensures LocatedFor(db, req).Values <= Freed(db, req, now).items.Keys
    ensures AllCovered(Freed(db, req, now).items, req, LocatedFor(db, req)) == AllFit(db, req, now)
  {
    var at, freed := LocatedFor(db, req), Freed(db, req, now);
    FreedIsReady(db, req, now);
    LocatedLines(db, req);
    forall n | 0 <= n < |req.lines|
      ensures LineFits(db, req, n, now) <==> req.lines[n].quantity <= Available(freed.items[at[req.lines[n].sku]])
    {
      var i := at[req.lines[n].sku];
      FreedLeavesTakeable(db, req, now, i);
      assert IsPosition(db.items, req.warehouse, req.lines[n].sku, i);
    }
  }

  /** An accepted reserve freed the lapsed holds on its positions and then placed every line. */
  lemma CreatedShape(db: Db, req: Request, cat: Catalog, window: int, now: Time)
    requires Inv(db) && ValidRequest(req) && ReserveLocked(db, req, cat, window, now).1.Created?
    ensures forall m :: 0 <= m < |req.lines| ==>
              req.lines[m].sku in LocatedFor(db, req)
              && LocatedFor(db, req)[req.lines[m].sku] in Freed(db, req, now).items
    ensures ReserveLocked(db, req, cat, window, now).0 ==
            PlaceAll(Freed(db, req, now), req, LocatedFor(db, req), now + window)
  {
    ReserveLockedIs(db, req, cat, window, now);
  }

  // ---------------------------------------------------------------- what an accepted reserve takes

  /** How much of a SKU, and in how many lines, a request asks for. */
  function LineTotal(lines: seq<Line>, sku: Id): int {
    if lines == [] then 0
    else LineTotal(lines[..|lines| - 1], sku)
         + (if lines[|lines| - 1].sku == sku then lines[|lines| - 1].quantity else 0)
  }

  function LineCount(lines: seq<Line>, sku: Id): int {
    if lines == [] then 0
    else LineCount(lines[..|lines| - 1], sku) + (if lines[|lines| - 1].sku == sku then 1 else 0)
  }

  function PlacedItem(it: Item, warehouse: Id, lines: seq<Line>): Item {
    if it.warehouse != warehouse then it
    else it.(reserved := it.reserved + LineTotal(lines, it.sku), version := it.version + LineCount(lines, it.sku))
  }

  /** Placing lines moves each position of the warehouse by what the request asks of its SKU. */
  lemma {:induction false} HoldLinesItem(db: Db, req: Request, at: map<Id, Id>, expiresAt: Time, n: nat, i: Id)
    requires n <= |req.lines| && i in db.items && UniquePositions(db.items)
    requires forall m :: 0 <= m < |req.lines| ==>
               && req.lines[m].sku in at && at[req.lines[m].sku] in db.items
               && IsPosition(db.items, req.warehouse, req.lines[m].sku, at[req.lines[m].sku])
    ensures HoldLines(db, req, at, expiresAt, n).items[i] == PlacedItem(db.items[i], req.warehouse, req.lines[..n])
  {
    if n > 0 {
      HoldLinesItem(db, req, at, expiresAt, n - 1, i);
      assert req.lines[..n][..n - 1] == req.lines[..n - 1];
      var hit := at[req.lines[n - 1].sku];
      assert IsPosition(db.items, req.warehouse, req.lines[n - 1].sku, hit);
    }
  }

  ghost predicate LocatedAt(db: Db, req: Request, at: map<Id, Id>) {
    forall m :: 0 <= m < |req.lines| ==>
      && req.lines[m].sku in at && at[req.lines[m].sku] in db.items
      && IsPosition(db.items, req.warehouse, req.lines[m].sku, at[req.lines[m].sku])
  }

  lemma PlacedItems(db: Db, req: Request, at: map<Id, Id>, expiresAt: Time, placed: Db, i: Id)
    requires UniquePositions(db.items) && LocatedAt(db, req, at) && i in db.items
    requires placed == PlaceAll(db, req, at, expiresAt)
    ensures i in placed.items && placed.items[i] == PlacedItem(db.items[i], req.warehouse, req.lines)
  {
    HoldLinesItem(db, req, at, expiresAt, |req.lines|, i);
    assert req.lines[..|req.lines|] == req.lines;
  }

  lemma CreatedItem(db: Db, req: Request, cat: Catalog, window: int, now: Time, i: Id)
    requires Inv(db) && ValidRequest(req) && ReserveLocked(db, req, cat, window, now).1.Created? && i in db.items
    ensures i in Freed(db, req, now).items && i in ReserveLocked(db, req, cat, window, now).0.items
    ensures ReserveLocked(db, req, cat, window, now).0.items[i] ==
              PlacedItem(Freed(db, req, now).items[i], req.warehouse, req.lines)
  {
    CreatedShape(db, req, cat, window, now);
    FreedPositions(db, req, now);
    PlacedItems(Freed(db, req, now), req, LocatedFor(db, req), now + window, ReserveLocked(db, req, cat, window, now).0,
                i);
  }

  /** Freeing lapsed holds leaves every position where it was. */
  lemma FreedPositions(db: Db, req: Request, now: Time)
    requires Inv(db)
    ensures Freed(db, req, now).items.Keys == db.items.Keys && UniquePositions(Freed(db, req, now).items)
    ensures forall n :: 0 <= n < |req.lines| && req.lines[n].sku in LocatedFor(db, req) ==>
              && LocatedFor(db, req)[req.lines[n].sku] in Freed(db, req, now).items
              && IsPosition(Freed(db, req, now).items, req.warehouse, req.lines[n].sku,
                            LocatedFor(db, req)[req.lines[n].sku])
  {
    TouchKeepsPlaces(db, LapsedOn(LocatedFor(db, req).Values, now), Releasing, now, |db.holds|);
    LocatedLines(db, req);
    FreedIsReady(db, req, now);
  }

  predicate Asks(lines: seq<Line>, sku: Id) {
    exists n :: 0 <= n < |lines| && lines[n].sku == sku
  }

  /** The position is one the request needs. */
  predicate IsNeeded(it: Item, req: Request) {
    it.warehouse == req.warehouse && Asks(req.lines, it.sku)
  }

  lemma NeededIsLocated(db: Db, req: Request, i: Id)
    requires Inv(db) && i in db.items
    ensures i in LocatedFor(db, req).Values <==> IsNeeded(db.items[i], req)
  {
    var at := LocatedFor(db, req);
    LocatedIsExact(db.items, req.warehouse, SkuSet(req.lines));
    if i in at.Values {
      var sku :| sku in at && at[sku] == i;
      var n :| 0 <= n < |req.lines| && req.lines[n].sku == sku;
    }
    if IsNeeded(db.items[i], req) {
      var n :| 0 <= n < |req.lines| && req.lines[n].sku == db.items[i].sku;
      assert req.lines[n].sku in SkuSet(req.lines);
    }
  }

  /** What a reserve does to the rows there were: it releases those that have lapsed on positions it needs, and no
      other. */
  lemma CreatedFrees(db: Db, req: Request, cat: Catalog, window: int, now: Time)
    requires Inv(db) && ValidRequest(req) && ReserveLocked(db, req, cat, window, now).1.Created?
    ensures var after := ReserveLocked(db, req, cat, window, now).0.holds;
            && |db.holds| <= |after|
            && forall k :: 0 <= k < |db.holds| ==>
                 var h := db.holds[k];
                 after[k] == if Lapsed(h, now) && h.warehouse == req.warehouse && Asks(req.lines, h.sku)
                             then h.(status := Released, releasedAt := Some(now)) else h
  {
    CreatedShape(db, req, cat, window, now);
    TouchUpToRows(db, LapsedOn(LocatedFor(db, req).Values, now), Releasing, now, |db.holds|);
    forall k | 0 <= k < |db.holds|
      ensures db.holds[k].item in LocatedFor(db, req).Values <==>
              db.holds[k].warehouse == req.warehouse && Asks(req.lines, db.holds[k].sku)
    {
      NeededIsLocated(db, req, db.holds[k].item);
    }
  }

  lemma FreedOn(db: Db, req: Request, now: Time, i: Id)
    requires Inv(db) && i in db.items
    ensures i in Freed(db, req, now).items
    ensures var was, freed := db.items[i], Freed(db, req, now).items[i];
            if IsNeeded(was, req)
            then freed == was.(reserved := was.reserved - Total(db.holds, PickedOn(i, LapsedOn({i}, now))),
                               version := was.version + Total(db.holds, CountPicked(i, LapsedOn({i}, now))))
            else freed == was
  {
    var pick := LapsedOn(LocatedFor(db, req).Values, now);
    TouchAllIs(db, pick, Releasing, now);
    NeededIsLocated(db, req, i);
    if IsNeeded(db.items[i], req) {
      TotalAgrees(db.holds, PickedOn(i, pick), PickedOn(i, LapsedOn({i}, now)));
      TotalAgrees(db.holds, CountPicked(i, pick), CountPicked(i, LapsedOn({i}, now)));
    } else {
      NothingPicked(db.holds, i, pick);
    }
  }

  /** What an accepted reserve does to each position: on hand stays; a position it needs loses what had lapsed on it and
      gains what its lines ask for; every other position stays. */
  lemma CreatedMoves(db: Db, req: Request, cat: Catalog, window: int, now: Time, i: Id)
    requires Inv(db) && ValidRequest(req) && ReserveLocked(db, req, cat, window, now).1.Created? && i in db.items
    ensures i in ReserveLocked(db, req, cat, window, now).0.items
    ensures var was, moved := db.items[i], ReserveLocked(db, req, cat, window, now).0.items[i];
            if IsNeeded(was, req)
            then moved == Item(was.warehouse, was.sku, was.onHand,
                            was.reserved - Total(db.holds, PickedOn(i, LapsedOn({i}, now)))
                            + LineTotal(req.lines, was.sku),
                            was.version + Total(db.holds, CountPicked(i, LapsedOn({i}, now)))
                            + LineCount(req.lines, was.sku))
            else moved == was
  {
    CreatedItem(db, req, cat, window, now, i);
    FreedOn(db, req, now, i);
    NothingAsked(req.lines, db.items[i].sku);
  }

  lemma {:induction false} NothingAsked(lines: seq<Line>, sku: Id)
    ensures !Asks(lines, sku) ==> LineTotal(lines, sku) == 0 && LineCount(lines, sku) == 0
  {
    if lines != [] {
      NothingAsked(lines[..|lines| - 1], sku);
      assert lines[|lines| - 1].sku == sku ==> Asks(lines, sku);
    }
  }
}
