/** Lazy expiry inside reserve agrees with sweeping first.

    A reserve looks only at the positions it needs. A sweep before it frees more, and makes no difference to it. */
module StockExpiry {
  import opened Common
  import opened StockTables
  import opened StockOps
  import opened StockInvariant
  import opened StockEffects

  ghost function Swept(db: Db, now: Time): Db
    requires Constraints(db)
  {
    Sweep(db, None, now).0
  }

  lemma {:induction false} TotalSame(a: seq<Hold>, b: seq<Hold>, f: Filter)
    requires |a| == |b| && forall k :: 0 <= k < |a| ==> Weight(f, a[k]) == Weight(f, b[k])
    ensures Total(a, f) == Total(b, f)
  {
    if a != [] {
      TotalSame(a[..|a| - 1], b[..|b| - 1], f);
    }
  }

  lemma SweptRows(db: Db, now: Time)
    requires Inv(db)
    ensures Inv(Swept(db, now))
    ensures |Swept(db, now).holds| == |db.holds| && Swept(db, now).items.Keys == db.items.Keys
    ensures forall k :: 0 <= k < |db.holds| ==>
              Swept(db, now).holds[k] ==
              if Lapsed(db.holds[k], now) then TouchedRow(Releasing, db.holds[k], now) else db.holds[k]
    ensures forall i :: i in db.items ==>
              Swept(db, now).items[i] ==
              TouchedItem(Releasing, db.items[i],
                          Total(db.holds, PickedOn(i, LapsedOn({i}, now))),
                          Total(db.holds, CountPicked(i, LapsedOn({i}, now))))
  {
    var positions := SweepPositions(db, None, now);
    var pick := LapsedOn(positions, now);
    ExpireKeepsInv(db, positions, now);
    TouchAllIs(db, pick, Releasing, now);
    SweepPicks(db, None, now);
    forall i | i in db.items
      ensures Total(db.holds, PickedOn(i, pick)) == Total(db.holds, PickedOn(i, LapsedOn({i}, now)))
      ensures Total(db.holds, CountPicked(i, pick)) == Total(db.holds, CountPicked(i, LapsedOn({i}, now)))
    {
      TotalAgrees(db.holds, PickedOn(i, pick), PickedOn(i, LapsedOn({i}, now)));
      TotalAgrees(db.holds, CountPicked(i, pick), CountPicked(i, LapsedOn({i}, now)));
    }
  }

  /** Sweeping changes nothing the stock check of reserve looks at. */
  lemma SweepKeepsDecision(db: Db, req: Request, now: Time)
    requires Inv(db)
    ensures AllHavePositions(Swept(db, now), req) == AllHavePositions(db, req)
    ensures AllFit(Swept(db, now), req, now) == AllFit(db, req, now)
    ensures AlreadyListed(Swept(db, now).holds, req) == AlreadyListed(db.holds, req)
  {
    var e := Swept(db, now);
    SweptRows(db, now);
    AlreadyListedAgrees(db.holds, e.holds, req);
    AlreadyListedAgrees(e.holds, db.holds, req);
    forall i | i in db.items ensures Takeable(e, i, now) == Takeable(db, i, now) {
      TotalSame(db.holds, e.holds, LiveOn(i, now));
    }
    forall n | 0 <= n < |req.lines|
      ensures HasPosition(e, req, n) == HasPosition(db, req, n) && LineFits(e, req, n, now) == LineFits(db, req, n, now)
    {
      assert forall i :: IsPosition(e.items, req.warehouse, req.lines[n].sku, i)
                         == IsPosition(db.items, req.warehouse, req.lines[n].sku, i);
    }
  }

  lemma SweepKeepsLocated(db: Db, req: Request, now: Time)
    requires Inv(db)
    ensures Constraints(Swept(db, now)) && LocatedFor(Swept(db, now), req) == LocatedFor(db, req)
  {
    var e := Swept(db, now);
    SweptRows(db, now);
    LocatedIsExact(db.items, req.warehouse, SkuSet(req.lines));
    LocatedIsExact(e.items, req.warehouse, SkuSet(req.lines));
    assert forall i :: i in db.items ==>
             e.items[i].warehouse == db.items[i].warehouse && e.items[i].sku == db.items[i].sku;
  }

  /** A requested position ends up the same whether its lapsed holds were freed by the sweep or by reserve itself. */
  lemma FreedEitherWay(db: Db, req: Request, now: Time, i: Id)
    requires Inv(db) && i in LocatedFor(db, req).Values
    ensures Inv(Swept(db, now)) && i in Freed(db, req, now).items && i in Freed(Swept(db, now), req, now).items
    ensures Freed(Swept(db, now), req, now).items[i] == Freed(db, req, now).items[i]
  {
    var e := Swept(db, now);
    SweptRows(db, now);
    SweepKeepsLocated(db, req, now);
    FreedLeavesTakeable(db, req, now, i);
    FreedLeavesTakeable(e, req, now, i);
    NothingPicked(e.holds, i, LapsedOn({i}, now));
  }

  /** Running the sweep first changes neither the decision of reserve nor, when it is accepted, any requested
      position. */
  lemma LazyRefinesEager(db: Db, req: Request, cat: Catalog, window: int, now: Time)
    requires Inv(db) && ValidRequest(req)
    ensures Inv(Swept(db, now))
    ensures ReserveLocked(Swept(db, now), req, cat, window, now).1 == ReserveLocked(db, req, cat, window, now).1
    ensures ReserveLocked(db, req, cat, window, now).1.Created? ==>
              forall i :: i in LocatedFor(db, req).Values ==>
                && i in ReserveLocked(db, req, cat, window, now).0.items
                && i in ReserveLocked(Swept(db, now), req, cat, window, now).0.items
                && ReserveLocked(Swept(db, now), req, cat, window, now).0.items[i] ==
                     ReserveLocked(db, req, cat, window, now).0.items[i]
  {
    var e := Swept(db, now);
    SweptRows(db, now);
    SweepKeepsDecision(db, req, now);
    ReserveDecides(db, req, cat, window, now);
    ReserveDecides(e, req, cat, window, now);
    if ReserveLocked(db, req, cat, window, now).1.Created? {
      forall i | i in LocatedFor(db, req).Values
        ensures i in ReserveLocked(db, req, cat, window, now).0.items
                && i in ReserveLocked(e, req, cat, window, now).0.items
        ensures ReserveLocked(e, req, cat, window, now).0.items[i] ==
                  ReserveLocked(db, req, cat, window, now).0.items[i]
      {
        SamePlacement(db, req, cat, window, now, i);
      }
    }
  }

  lemma SamePlacement(db: Db, req: Request, cat: Catalog, window: int, now: Time, i: Id)
    requires Inv(db) && ValidRequest(req) && Inv(Swept(db, now)) && i in LocatedFor(db, req).Values
    requires ReserveLocked(db, req, cat, window, now).1.Created?
             && ReserveLocked(Swept(db, now), req, cat, window, now).1.Created?
    ensures i in ReserveLocked(db, req, cat, window, now).0.items
            && i in ReserveLocked(Swept(db, now), req, cat, window, now).0.items
    ensures ReserveLocked(Swept(db, now), req, cat, window, now).0.items[i] ==
              ReserveLocked(db, req, cat, window, now).0.items[i]
  {
    var e := Swept(db, now);
    SweepKeepsLocated(db, req, now);
    CreatedItem(db, req, cat, window, now, i);
    CreatedItem(e, req, cat, window, now, i);
    FreedEitherWay(db, req, now, i);
  }
}
