/** The lock steps and the stock transactions are about the same thing.

    What a finished transaction of the lock steps does to the holds is what one of the stock transactions does, so the
    theorems about runs of the one speak about runs of the other. */
module LocksStock {
  import opened Common
  import T = StockTables
  import Ops = StockOps
  import opened StockInvariant
  import opened StockEffects
  import opened StockRuns
  import opened StockOnce
  import L = Locks

  /** The hold table as the lock steps see it; a row's id is its index. */
  function Seen(holds: seq<T.Hold>): map<L.HoldId, L.Hold> {
    map k | 0 <= k < |holds| :: L.Hold(holds[k].shipment, holds[k].item, holds[k].status == T.Held)
  }

  function SkuOf(items: map<Id, T.Item>): map<Id, Id> {
    map i | i in items :: items[i].sku
  }

  /** The ids of the rows a statement picks. */
  function Picked(holds: seq<T.Hold>, pick: T.Pick): (ids: seq<L.HoldId>)
    ensures forall k :: k in ids <==> 0 <= k < |holds| && T.Picks(pick, holds[k])
  {
    if holds == [] then []
    else
      var n := |holds| - 1;
      var ids := Picked(holds[..n], pick);
      assert forall k :: 0 <= k < n ==> holds[..n][k] == holds[k];
      ids + (if T.Picks(pick, holds[n]) then [n] else [])
  }

  function ItemsOf(holds: seq<T.Hold>, ids: seq<L.HoldId>): (items: seq<Id>)
    requires forall n :: 0 <= n < |ids| ==> 0 <= ids[n] < |holds|
    ensures |items| == |ids| && forall n :: 0 <= n < |ids| ==> items[n] == holds[ids[n]].item
  {
    seq(|ids|, n requires 0 <= n < |ids| => holds[ids[n]].item)
  }

  /** The lock-level account of a transaction: what it does to the holds is this effect on what is seen of them. */
  ghost predicate Accounts(db: T.Db, after: T.Db, e: L.Effect) {
    && L.Fits(SkuOf(db.items), Seen(db.holds), e)
    && Seen(after.holds) == L.Performed(SkuOf(db.items), Seen(db.holds), e)
  }

  lemma SeenAgrees(a: seq<T.Hold>, b: seq<T.Hold>)
    requires |a| == |b|
    requires forall k :: 0 <= k < |a| ==>
               && a[k].shipment == b[k].shipment && a[k].item == b[k].item
               && (a[k].status == T.Held <==> b[k].status == T.Held)
    ensures Seen(a) == Seen(b)
  {
  }

  lemma ConfirmIsSeen(db: T.Db, s: Id, now: Time)
    requires Inv(db)
    ensures Accounts(db, Ops.Confirm(db, s, now).0, L.Effect.Confirmed(s))
  {
    TouchAllIs(db, T.HeldFor(s), Ops.Confirming, now);
    SeenAgrees(Ops.Confirm(db, s, now).0.holds, db.holds);
  }

  /** The shipment's HELD rows have left HELD, and no other row has. */
  ghost predicate Settles(before: seq<T.Hold>, after: seq<T.Hold>, s: Id) {
    && |after| == |before|
    && forall k :: 0 <= k < |before| ==>
         && after[k].shipment == before[k].shipment && after[k].item == before[k].item
         && (after[k].status == T.Held <==> before[k].status == T.Held && before[k].shipment != s)
  }

  lemma SettledIsSeen(before: seq<T.Hold>, after: seq<T.Hold>, s: Id)
    requires Settles(before, after, s)
    ensures Seen(after) == L.ClosedFor(Seen(before), s)
  {
  }

  lemma CommitSettles(db: T.Db, s: Id, now: Time)
    requires Inv(db)
    ensures Settles(db.holds, Ops.Commit(db, s, now).0.holds, s)
  {
    CommitMarks(db, s, now);
  }

  lemma ReleaseSettles(db: T.Db, s: Id, now: Time)
    requires Inv(db)
    ensures Settles(db.holds, Ops.Release(db, s, now).0.holds, s)
  {
    ReleaseMarks(db, s, now);
  }

  /** Exactly the picked rows have left HELD. */
  ghost predicate Frees(before: seq<T.Hold>, after: seq<T.Hold>, pick: T.Pick) {
    && |after| == |before|
    && forall k :: 0 <= k < |before| ==>
         && after[k].shipment == before[k].shipment && after[k].item == before[k].item
         && (after[k].status == T.Held <==> before[k].status == T.Held && !T.Picks(pick, before[k]))
  }

  lemma FreedIsSeen(before: seq<T.Hold>, after: seq<T.Hold>, pick: T.Pick)
    requires Frees(before, after, pick)
    ensures Seen(after) == L.Closed(Seen(before), Picked(before, pick))
  {
  }

  lemma SweepFrees(db: T.Db, scope: Option<set<Id>>, now: Time)
    requires Inv(db)
    ensures Frees(db.holds, Ops.Sweep(db, scope, now).0.holds, T.LapsedOn(Ops.SweepPositions(db, scope, now), now))
  {
    var positions := Ops.SweepPositions(db, scope, now);
    ExpireKeepsInv(db, positions, now);
    TouchAllIs(db, T.LapsedOn(positions, now), Ops.Releasing, now);
  }

  lemma FreeingIsSwept(db: T.Db, after: T.Db, pick: T.Pick)
    requires Frees(db.holds, after.holds, pick) && pick.LapsedOn?
    ensures exists e: L.Effect :: e.Swept? && Accounts(db, after, e)
  {
    var found := Picked(db.holds, pick);
    assert forall n :: 0 <= n < |found| ==> found[n] in found;
    var want := ItemsOf(db.holds, found);
    FreedIsSeen(db.holds, after.holds, pick);
    forall h | h in found ensures db.holds[h].item in want {
      var n :| 0 <= n < |found| && found[n] == h;
      assert want[n] == db.holds[h].item;
    }
    assert Accounts(db, after, L.Swept(want, found));
  }

  /** The positions of a request's lines. */
  function Wants(lines: seq<Ops.Line>, at: map<Id, Id>): (items: seq<Id>)
    requires forall n :: 0 <= n < |lines| ==> lines[n].sku in at
    ensures |items| == |lines| && forall n :: 0 <= n < |lines| ==> items[n] == at[lines[n].sku]
  {
    seq(|lines|, n requires 0 <= n < |lines| => at[lines[n].sku])
  }

  function Numbers(from: nat, n: nat): (ids: seq<int>)
    ensures |ids| == n && forall k :: 0 <= k < n ==> ids[k] == from + k
  {
    seq(n, k => from + k)
  }

  predicate Consecutive(ids: seq<int>, from: int) {
    forall k :: 0 <= k < |ids| ==> ids[k] == from + k
  }

  lemma ConsecutiveHas(ids: seq<int>, from: int, k: int)
    requires Consecutive(ids, from)
    ensures k in ids <==> from <= k < from + |ids|
    ensures k in ids ==> ids[k - from] == k
    ensures forall i, j :: 0 <= i < j < |ids| ==> ids[i] != ids[j]
  {
    if from <= k < from + |ids| {
      assert ids[k - from] == k;
    }
  }

  lemma PlacedHas(ship: Id, want: seq<Id>, ids: seq<int>, j: nat)
    requires j < |ids| == |want| && forall i, k :: 0 <= i < k < |ids| ==> ids[i] != ids[k]
    ensures ids[j] in L.Placed(ship, want, ids) && L.Placed(ship, want, ids)[ids[j]] == L.Hold(ship, want[j], true)
  {
  }

  /** Id k is in the map exactly if it numbers one of these rows, counting from the given id, and then as seen. */
  predicate RowFits(placed: map<L.HoldId, L.Hold>, from: nat, added: seq<T.Hold>, k: int) {
    if from <= k < from + |added|
    then k in placed && var h := added[k - from]; placed[k] == L.Hold(h.shipment, h.item, h.status == T.Held)
    else k !in placed
  }

  ghost predicate SeenFrom(placed: map<L.HoldId, L.Hold>, from: nat, added: seq<T.Hold>) {
    forall k {:trigger RowFits(placed, from, added, k)} :: RowFits(placed, from, added, k)
  }

  lemma SeenSplits(freed: seq<T.Hold>, added: seq<T.Hold>, placed: map<L.HoldId, L.Hold>)
    requires SeenFrom(placed, |freed|, added)
    ensures Seen(freed + added) == Seen(freed) + placed
  {
    var seen, both := Seen(freed + added), Seen(freed) + placed;
    forall k ensures (k in seen <==> k in both) && (k in seen ==> seen[k] == both[k]) {
      assert RowFits(placed, |freed|, added, k);
    }
  }

  /** Row k is placed as the reserve of these lines places it. */
  predicate Places(h: T.Hold, ship: Id, item: Id) {
    h.shipment == ship && h.item == item && h.status == T.Held
  }

  lemma PlacedAt(from: nat, added: seq<T.Hold>, ship: Id, want: seq<Id>, ids: seq<int>, k: int)
    requires |want| == |added| == |ids| && Consecutive(ids, from)
    requires forall n :: 0 <= n < |added| ==> Places(added[n], ship, want[n])
    ensures RowFits(L.Placed(ship, want, ids), from, added, k)
  {
    ConsecutiveHas(ids, from, k);
    if k in ids {
      PlacedHas(ship, want, ids, k - from);
      assert Places(added[k - from], ship, want[k - from]);
    }
  }

  lemma PlacedIsSeen(from: nat, added: seq<T.Hold>, ship: Id, want: seq<Id>, ids: seq<int>)
    requires |want| == |added| == |ids| && Consecutive(ids, from)
    requires forall n :: 0 <= n < |added| ==> Places(added[n], ship, want[n])
    ensures SeenFrom(L.Placed(ship, want, ids), from, added)
  {
    forall k ensures RowFits(L.Placed(ship, want, ids), from, added, k) {
      PlacedAt(from, added, ship, want, ids, k);
    }
  }

  lemma ReserveFits(db: T.Db, req: Ops.Request, at: map<Id, Id>, expired: seq<L.HoldId>)
    requires Inv(db) && Ops.ValidRequest(req) && !AlreadyListed(db.holds, req) && LocatedAt(db, req, at)
    requires L.HeldOn(Seen(db.holds), Wants(req.lines, at), expired)
    ensures L.Fits(SkuOf(db.items), Seen(db.holds),
                   L.Reserved(req.shipment, Wants(req.lines, at), expired, Numbers(|db.holds|, |req.lines|)))
  {
    var want, sku, seen := Wants(req.lines, at), SkuOf(db.items), Seen(db.holds);
    forall n | 0 <= n < |want| ensures want[n] in sku && sku[want[n]] == req.lines[n].sku {
      assert IsPosition(db.items, req.warehouse, req.lines[n].sku, want[n]);
    }
    forall n | 0 <= n < |want| ensures !L.RowFor(sku, seen, req.shipment, sku[want[n]]) {
      forall h | h in seen && seen[h].ship == req.shipment && seen[h].item in sku
        ensures sku[seen[h].item] != sku[want[n]]
      {
        assert db.holds[h].sku == db.items[db.holds[h].item].sku;
      }
    }
  }

  lemma LapsedAreWanted(db: T.Db, req: Ops.Request, now: Time)
    requires Inv(db) && LocatedAt(db, req, LocatedFor(db, req))
    ensures var pick := T.LapsedOn(LocatedFor(db, req).Values, now);
            L.HeldOn(Seen(db.holds), Wants(req.lines, LocatedFor(db, req)), Picked(db.holds, pick))
  {
    var at := LocatedFor(db, req);
    var pick, want := T.LapsedOn(at.Values, now), Wants(req.lines, at);
    forall h | h in Picked(db.holds, pick) ensures db.holds[h].item in want {
      var sku :| sku in at && at[sku] == db.holds[h].item;
      var n :| 0 <= n < |req.lines| && req.lines[n].sku == sku;
      assert want[n] == db.holds[h].item;
    }
  }

  /** What an accepted reserve leaves of the holds: the lapsed ones on its positions freed, and its own rows. */
  lemma CreatedHolds(db: T.Db, req: Ops.Request, cat: Ops.Catalog, window: int, now: Time)
    returns (freed: seq<T.Hold>, added: seq<T.Hold>, at: map<Id, Id>)
    requires Inv(db) && Ops.ValidRequest(req) && Ops.ReserveLocked(db, req, cat, window, now).1.Created?
    ensures at == LocatedFor(db, req) && LocatedAt(db, req, at) && !AlreadyListed(db.holds, req)
    ensures Ops.ReserveLocked(db, req, cat, window, now).0.holds == freed + added
    ensures Frees(db.holds, freed, T.LapsedOn(at.Values, now)) && |added| == |req.lines|
    ensures forall n :: 0 <= n < |added| ==> Places(added[n], req.shipment, at[req.lines[n].sku])
  {
    at := LocatedFor(db, req);
    CreatedShape(db, req, cat, window, now);
    LocatedLines(db, req);
    ReserveDecides(db, req, cat, window, now);
    TouchAllIs(db, T.LapsedOn(at.Values, now), Ops.Releasing, now);
    NewRowsAre(req, at, now + window, |req.lines|);
    freed, added := Freed(db, req, now).holds, Ops.NewRows(req, at, now + window, |req.lines|);
  }

  lemma CreatedIsSeen(db: T.Db, req: Ops.Request, cat: Ops.Catalog, window: int, now: Time)
    requires Inv(db) && Ops.ValidRequest(req) && Ops.ReserveLocked(db, req, cat, window, now).1.Created?
    ensures exists e: L.Effect :: e.Reserved? && e.ship == req.shipment && |e.want| == |req.lines|
                                  && Accounts(db, Ops.ReserveLocked(db, req, cat, window, now).0, e)
  {
    var freed, added, at := CreatedHolds(db, req, cat, window, now);
    var want, ids := Wants(req.lines, at), Numbers(|db.holds|, |req.lines|);
    var found := Picked(db.holds, T.LapsedOn(at.Values, now));
    PlacedIsSeen(|freed|, added, req.shipment, want, ids);
    SeenSplits(freed, added, L.Placed(req.shipment, want, ids));
    FreedIsSeen(db.holds, freed, T.LapsedOn(at.Values, now));
    LapsedAreWanted(db, req, now);
    ReserveFits(db, req, at, found);
    assert Accounts(db, Ops.ReserveLocked(db, req, cat, window, now).0, L.Reserved(req.shipment, want, found, ids));
  }

  lemma NothingIsSeen(db: T.Db, after: T.Db)
    requires after.holds == db.holds
    ensures Accounts(db, after, L.Adjusted([]))
  {
  }

  /** The kind of lock-level transaction that a stock transaction is. A reserve that creates nothing changes nothing. */
  predicate IsAsked(op: Ops.Op, created: bool, e: L.Effect) {
    match op
    case DoConfirm(s, _) => e == L.Effect.Confirmed(s)
    case DoCommit(s, _) => e == L.Settled(s)
    case DoRelease(s, _) => e == L.Settled(s)
    case DoSweep(_, _) => e.Swept?
    case DoReserve(req, _, _, _) => IsReservation(req, created, e)
    case DoReserveRaced(req, _, _, _) => IsReservation(req, created, e)
    case _ => e.Adjusted?
  }

  predicate IsReservation(req: Ops.Request, created: bool, e: L.Effect) {
    if created then e.Reserved? && e.ship == req.shipment && |e.want| == |req.lines| else e.Adjusted?
  }

  /** Every stock transaction does to the holds what a finished transaction of the lock steps does. So where those are
      serial in the order they finish, this is a run of stock transactions. */
  lemma ApplyIsPerformed(db: T.Db, op: Ops.Op)
    requires Inv(db) && Ops.Admissible(db, op)
    ensures exists e: L.Effect :: IsAsked(op, Ops.Apply(db, op).1.Created?, e) && Accounts(db, Ops.Apply(db, op).0, e)
  {
    var after := Ops.Apply(db, op).0;
    match op
    case DoReserve(req, cat, window, now) => ReserveIsSeen(db, op);
    case DoReserveRaced(req, cat, window, now) => ReserveIsSeen(db, op);
    case DoConfirm(s, now) => ConfirmIsSeen(db, s, now);
    case DoCommit(s, now) =>
      CommitSettles(db, s, now);
      SettledIsSeen(db.holds, after.holds, s);
      assert Accounts(db, after, L.Settled(s));
    case DoRelease(s, now) =>
      ReleaseSettles(db, s, now);
      SettledIsSeen(db.holds, after.holds, s);
      assert Accounts(db, after, L.Settled(s));
    case DoSweep(scope, now) =>
      SweepFrees(db, scope, now);
      FreeingIsSwept(db, after, T.LapsedOn(Ops.SweepPositions(db, scope, now), now));
    case _ => NothingIsSeen(db, after);
  }

  lemma ReserveIsSeen(db: T.Db, op: Ops.Op)
    requires Inv(db) && Ops.Admissible(db, op) && IsReserve(op)
    ensures exists e: L.Effect :: IsAsked(op, Ops.Apply(db, op).1.Created?, e) && Accounts(db, Ops.Apply(db, op).0, e)
  {
    if Ops.Apply(db, op).1.Created? {
      CreatedIsSeen(db, op.req, op.cat, op.window, op.now);
    } else {
      ReserveLockedIs(db, op.req, op.cat, op.window, op.now);
      NothingIsSeen(db, Ops.Apply(db, op).0);
    }
  }
}
