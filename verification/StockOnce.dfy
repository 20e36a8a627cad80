/** Reserving is all-or-nothing and acts once per shipment, however often and however concurrently it is repeated. */
module StockOnce {
  import opened Common
  import opened StockTables
  import opened StockOps
  import opened StockInvariant
  import opened StockEffects
  import opened StockRuns

  ghost predicate Unlisted(holds: seq<Hold>, s: Id) {
    forall k :: 0 <= k < |holds| ==> holds[k].shipment != s
  }

  ghost predicate IsLine(h: Hold, req: Request, n: nat)
    requires n < |req.lines|
  {
    h.shipment == req.shipment && h.sku == req.lines[n].sku && h.quantity == req.lines[n].quantity
  }

  ghost predicate LineListed(holds: seq<Hold>, req: Request, n: nat)
    requires n < |req.lines|
  {
    exists k :: 0 <= k < |holds| && IsLine(holds[k], req, n)
  }

  ghost predicate IsSomeLine(h: Hold, req: Request) {
    exists n :: 0 <= n < |req.lines| && IsLine(h, req, n)
  }

  /** The shipment's rows are the request's lines: every line has a row and every row is a line. */
  ghost predicate ListedExactly(holds: seq<Hold>, req: Request) {
    && (forall n :: 0 <= n < |req.lines| ==> LineListed(holds, req, n))
    && (forall k :: 0 <= k < |holds| && holds[k].shipment == req.shipment ==> IsSomeLine(holds[k], req))
  }

  ghost predicate SameRows(a: seq<Hold>, b: seq<Hold>) {
    |a| == |b| && forall k :: 0 <= k < |a| ==>
      a[k].shipment == b[k].shipment && a[k].sku == b[k].sku && a[k].quantity == b[k].quantity
  }

  lemma {:induction false} ExistingRowsIff(holds: seq<Hold>, s: Id)
    ensures ExistingRows(holds, s) == [] <==> Unlisted(holds, s)
  {
    if holds != [] {
      ExistingRowsIff(holds[..|holds| - 1], s);
    }
  }

  /** An accepted reserve appends its lines to rows that otherwise keep their identity. */
  lemma CreatedAppends(db: Db, req: Request, cat: Catalog, window: int, now: Time)
    requires Inv(db) && ValidRequest(req) && ReserveLocked(db, req, cat, window, now).1.Created?
    ensures exists kept: seq<Hold>, added: seq<Hold> ::
              && ReserveLocked(db, req, cat, window, now).0.holds == kept + added
              && SameRows(db.holds, kept) && |added| == |req.lines|
              && forall n :: 0 <= n < |req.lines| ==> IsLine(added[n], req, n) && added[n].status == Held
  {
    CreatedShape(db, req, cat, window, now);
    var kept := Freed(db, req, now).holds;
    TouchUpToRows(db, LapsedOn(LocatedFor(db, req).Values, now), Releasing, now, |db.holds|);
    NewRowsAre(req, LocatedFor(db, req), now + window, |req.lines|);
    var added := NewRows(req, LocatedFor(db, req), now + window, |req.lines|);
    assert ReserveLocked(db, req, cat, window, now).0.holds == kept + added;
  }

  lemma ListedExactlyKept(a: seq<Hold>, b: seq<Hold>, req: Request)
    requires SameRows(a, b) && ListedExactly(a, req)
    ensures ListedExactly(b, req)
  {
    forall n | 0 <= n < |req.lines| ensures LineListed(b, req, n) {
      assert LineListed(a, req, n);
      var k :| 0 <= k < |a| && IsLine(a[k], req, n);
      assert IsLine(b[k], req, n);
    }
    forall k | 0 <= k < |b| && b[k].shipment == req.shipment ensures IsSomeLine(b[k], req) {
      assert IsSomeLine(a[k], req);
      var n :| 0 <= n < |req.lines| && IsLine(a[k], req, n);
      assert IsLine(b[k], req, n);
    }
  }

  lemma AppendOthers(kept: seq<Hold>, added: seq<Hold>, req: Request)
    requires forall k :: 0 <= k < |added| ==> added[k].shipment != req.shipment
    ensures ListedExactly(kept, req) ==> ListedExactly(kept + added, req)
    ensures Unlisted(kept, req.shipment) ==> Unlisted(kept + added, req.shipment)
  {
    var all := kept + added;
    if ListedExactly(kept, req) {
      forall n | 0 <= n < |req.lines| ensures LineListed(all, req, n) {
        assert LineListed(kept, req, n);
        var k :| 0 <= k < |kept| && IsLine(kept[k], req, n);
        assert IsLine(all[k], req, n);
      }
    }
  }

  lemma AppendOwn(kept: seq<Hold>, added: seq<Hold>, req: Request)
    requires Unlisted(kept, req.shipment) && |added| == |req.lines|
    requires forall n :: 0 <= n < |req.lines| ==> IsLine(added[n], req, n)
    ensures ListedExactly(kept + added, req)
  {
    var all := kept + added;
    forall n | 0 <= n < |req.lines| ensures LineListed(all, req, n) {
      assert IsLine(all[|kept| + n], req, n);
    }
    forall k | 0 <= k < |all| && all[k].shipment == req.shipment ensures IsSomeLine(all[k], req) {
      assert IsLine(added[k - |kept|], req, k - |kept|);
    }
  }

  ghost predicate IsReserve(op: Op) { op.DoReserve? || op.DoReserveRaced? }

  /** All requests for this shipment are the same request. */
  ghost predicate SameRequests(ops: seq<Op>, req: Request) {
    forall n :: 0 <= n < |ops| && IsReserve(ops[n]) && ops[n].req.shipment == req.shipment ==> ops[n].req == req
  }

  ghost predicate Creates(db: Db, op: Op, s: Id)
    requires Constraints(db) && Admissible(db, op)
  {
    IsReserve(op) && op.req.shipment == s && Apply(db, op).1.Created?
  }

  /** What a transaction does to one shipment's list of rows. */
  lemma StepListing(db: Db, op: Op, req: Request)
    requires Inv(db) && Admissible(db, op) && ValidRequest(req)
    requires IsReserve(op) && op.req.shipment == req.shipment ==> op.req == req
    ensures var after := Apply(db, op).0.holds;
            && (ListedExactly(db.holds, req) ==> ListedExactly(after, req) && !Creates(db, op, req.shipment))
            && (Unlisted(db.holds, req.shipment) ==>
                  if Creates(db, op, req.shipment) then ListedExactly(after, req) else Unlisted(after, req.shipment))
  {
    var after := Apply(db, op).0.holds;
    if Apply(db, op).1.Created? {
      CreatedAppends(db, op.req, op.cat, op.window, op.now);
      var kept: seq<Hold>, added: seq<Hold> :|
        after == kept + added && SameRows(db.holds, kept) && |added| == |op.req.lines|
        && forall n :: 0 <= n < |op.req.lines| ==> IsLine(added[n], op.req, n) && added[n].status == Held;
      if ListedExactly(db.holds, req) {
        ListedExactlyKept(db.holds, kept, req);
        if op.req.shipment == req.shipment {
          ListedBlocks(db, op, req);
        }
      }
      if op.req.shipment != req.shipment {
        AppendOthers(kept, added, req);
      } else if Unlisted(db.holds, req.shipment) {
        AppendOwn(kept, added, req);
      }
    } else {
      NotCreatedKeepsRows(db, op);
      if ListedExactly(db.holds, req) {
        ListedExactlyKept(db.holds, after, req);
      }
    }
  }

  lemma NotCreatedKeepsRows(db: Db, op: Op)
    requires Inv(db) && Admissible(db, op) && !Apply(db, op).1.Created?
    ensures SameRows(db.holds, Apply(db, op).0.holds)
  {
    ApplyRows(db, op);
    if IsReserve(op) {
      ReserveLockedIs(db, op.req, op.cat, op.window, op.now);
    }
  }

  /** Once a line is on the books, neither a repeat nor a request that raced past the existence check creates
      anything. */
  lemma ListedBlocks(db: Db, op: Op, req: Request)
    requires Inv(db) && ValidRequest(req) && ListedExactly(db.holds, req) && IsReserve(op) && op.req == req
    ensures !Apply(db, op).1.Created?
  {
    assert LineListed(db.holds, req, 0);
    var k :| 0 <= k < |db.holds| && IsLine(db.holds[k], req, 0);
    assert AlreadyListed(db.holds, req) && !Unlisted(db.holds, req.shipment);
    ExistingRowsIff(db.holds, req.shipment);
    ReserveDecides(db, req, op.cat, op.window, op.now);
  }

  ghost function CreatesInRun(db: Db, ops: seq<Op>, s: Id): nat
    requires Inv(db) && AdmissibleRun(db, ops)
    decreases |ops|
  {
    if ops == [] then 0
    else ApplyKeepsInv(db, ops[0]); (if Creates(db, ops[0], s) then 1 else 0)
         + CreatesInRun(Apply(db, ops[0]).0, ops[1..], s)
  }

  lemma {:induction false} RunListing(db: Db, ops: seq<Op>, req: Request)
    requires Inv(db) && AdmissibleRun(db, ops) && ValidRequest(req) && SameRequests(ops, req)
    requires Unlisted(db.holds, req.shipment) || ListedExactly(db.holds, req)
    ensures ListedExactly(db.holds, req) ==>
              CreatesInRun(db, ops, req.shipment) == 0 && ListedExactly(Run(db, ops).holds, req)
    ensures Unlisted(db.holds, req.shipment) ==>
              || (CreatesInRun(db, ops, req.shipment) == 0 && Unlisted(Run(db, ops).holds, req.shipment))
              || (CreatesInRun(db, ops, req.shipment) == 1 && ListedExactly(Run(db, ops).holds, req))
    decreases |ops|
  {
    if ops != [] {
      ApplyKeepsInv(db, ops[0]);
      StepListing(db, ops[0], req);
      assert SameRequests(ops[1..], req) by {
        forall n | 0 <= n < |ops[1..]| && IsReserve(ops[1..][n]) && ops[1..][n].req.shipment == req.shipment
          ensures ops[1..][n].req == req
        {
          assert ops[1..][n] == ops[n + 1];
        }
      }
      if ListedExactly(db.holds, req) {
        ListedIsNotUnlisted(db.holds, req);
      }
      RunListing(Apply(db, ops[0]).0, ops[1..], req);
    }
  }

  lemma ListedIsNotUnlisted(holds: seq<Hold>, req: Request)
    requires ValidRequest(req) && ListedExactly(holds, req)
    ensures !Unlisted(holds, req.shipment)
  {
    assert LineListed(holds, req, 0);
  }

  /** Any mix of repeats of one request creates its holds at most once: no row at all, or exactly one row per line. */
  lemma ReserveActsOnce(ops: seq<Op>, req: Request)
    requires AdmissibleRun(EMPTY, ops) && ValidRequest(req) && SameRequests(ops, req)
    ensures var db := Run(EMPTY, ops);
            && UniqueLines(db.holds)
            && (|| (CreatesInRun(EMPTY, ops, req.shipment) == 0 && Unlisted(db.holds, req.shipment))
                || (CreatesInRun(EMPTY, ops, req.shipment) == 1 && ListedExactly(db.holds, req)))
  {
    RunListing(EMPTY, ops, req);
  }

  /** A fresh, unconfirmed hold for line n that lapses at expiresAt. */
  ghost predicate IsFreshLine(h: Hold, req: Request, n: nat, expiresAt: Time)
    requires n < |req.lines|
  {
    IsLine(h, req, n) && h.warehouse == req.warehouse && h.status == Held && h.confirmedAt.None?
    && h.committedAt.None? && h.releasedAt.None?
    && h.expiresAt == Some(expiresAt)
  }

  lemma CreatedRows(db: Db, req: Request, cat: Catalog, window: int, now: Time)
    requires Inv(db) && ValidRequest(req) && ReserveLocked(db, req, cat, window, now).1.Created?
    ensures var after := ReserveLocked(db, req, cat, window, now).0.holds;
            && |after| == |db.holds| + |req.lines|
            && forall k :: |db.holds| <= k < |after| ==> IsFreshLine(after[k], req, k - |db.holds|, now + window)
  {
    CreatedShape(db, req, cat, window, now);
    NewRowsAre(req, LocatedFor(db, req), now + window, |req.lines|);
  }

  /** All or nothing: unless it creates every line's hold and raises each position by what its line asks, reserve
      leaves all tables as they were. */
  lemma ReserveIsAllOrNothing(db: Db, req: Request, cat: Catalog, window: int, now: Time, i: Id)
    requires Inv(db) && ValidRequest(req) && i in db.items
    ensures var (after, outcome) := Reserve(db, req, cat, window, now);
            && (!outcome.Created? ==> after == db)
            && (outcome.Created? ==>
                  && |after.holds| == |db.holds| + |req.lines|
                  && (forall k :: |db.holds| <= k < |after.holds| ==>
                        IsFreshLine(after.holds[k], req, k - |db.holds|, now + window))
                  && i in Freed(db, req, now).items && i in after.items
                  && after.items[i] == PlacedItem(Freed(db, req, now).items[i], req.warehouse, req.lines))
  {
    if Reserve(db, req, cat, window, now).1.Created? {
      CreatedRows(db, req, cat, window, now);
      CreatedItem(db, req, cat, window, now, i);
    } else {
      ReserveLockedIs(db, req, cat, window, now);
    }
  }

  /** A replay reports RELEASED exactly when every row of the shipment was released; such a shipment holds no stock. */
  lemma ReplayAfterReleaseHoldsNothing(db: Db, req: Request, cat: Catalog, window: int, now: Time)
    requires Inv(db) && ValidRequest(req) && Reserve(db, req, cat, window, now).1.Replayed?
    ensures Reserve(db, req, cat, window, now).0 == db
    ensures Reserve(db, req, cat, window, now).1.status == Released <==>
            forall k :: 0 <= k < |db.holds| && db.holds[k].shipment == req.shipment ==> db.holds[k].status == Released
    ensures Reserve(db, req, cat, window, now).1.status == Released ==> CountPicks(db.holds, HeldFor(req.shipment)) == 0
  {
    var rows := ExistingRows(db.holds, req.shipment);
    CountPicksIff(db.holds, req.shipment);
    ExistingRowsAre(db.holds, req.shipment);
    ReserveLockedIs(db, req, cat, window, now);
    assert forall j :: 0 <= j < |rows| ==> rows[j] in rows;
  }

  lemma RowsGiveLines(holds: seq<Hold>, req: Request, x: (Id, int))
    ensures x in HeldLines(ExistingRows(holds, req.shipment)) <==>
            exists k :: 0 <= k < |holds| && holds[k].shipment == req.shipment && x == (holds[k].sku, holds[k].quantity)
  {
    var rows := ExistingRows(holds, req.shipment);
    ExistingRowsAre(holds, req.shipment);
    if x in HeldLines(rows) {
      var j :| 0 <= j < |rows| && x == (rows[j].sku, rows[j].quantity);
      assert rows[j] in rows;
    }
    if k :| 0 <= k < |holds| && holds[k].shipment == req.shipment && x == (holds[k].sku, holds[k].quantity) {
      assert holds[k] in rows;
    }
  }

  /** Two sets of lines are the same exactly when the rows are the request's lines. */
  lemma SameLinesIff(holds: seq<Hold>, req: Request)
    ensures Wanted(req.lines) == HeldLines(ExistingRows(holds, req.shipment)) <==> ListedExactly(holds, req)
  {
    var held := HeldLines(ExistingRows(holds, req.shipment));
    forall x ensures x in held <==>
                     exists k :: 0 <= k < |holds| && holds[k].shipment == req.shipment
                                 && x == (holds[k].sku, holds[k].quantity)
    {
      RowsGiveLines(holds, req, x);
    }
    if ListedExactly(holds, req) {
      WantedAreHeld(holds, req, held);
    } else if Wanted(req.lines) == held {
      SameIsListed(holds, req, held);
    }
  }

  ghost predicate AreLinesOf(held: set<(Id, int)>, holds: seq<Hold>, s: Id) {
    forall x :: x in held <==>
      exists k :: 0 <= k < |holds| && holds[k].shipment == s && x == (holds[k].sku, holds[k].quantity)
  }

  lemma WantedAreHeld(holds: seq<Hold>, req: Request, held: set<(Id, int)>)
    requires ListedExactly(holds, req) && AreLinesOf(held, holds, req.shipment)
    ensures Wanted(req.lines) == held
  {
    forall x | x in Wanted(req.lines) ensures x in held {
      var n :| 0 <= n < |req.lines| && x == (req.lines[n].sku, req.lines[n].quantity);
      assert LineListed(holds, req, n);
    }
    forall x | x in held ensures x in Wanted(req.lines) {
      var k :| 0 <= k < |holds| && holds[k].shipment == req.shipment && x == (holds[k].sku, holds[k].quantity);
      assert IsSomeLine(holds[k], req);
    }
  }

  lemma SameIsListed(holds: seq<Hold>, req: Request, held: set<(Id, int)>)
    requires Wanted(req.lines) == held && AreLinesOf(held, holds, req.shipment)
    ensures ListedExactly(holds, req)
  {
    forall n | 0 <= n < |req.lines| ensures LineListed(holds, req, n) {
      assert (req.lines[n].sku, req.lines[n].quantity) in held;
    }
    forall k | 0 <= k < |holds| && holds[k].shipment == req.shipment ensures IsSomeLine(holds[k], req) {
      assert (holds[k].sku, holds[k].quantity) in Wanted(req.lines);
      var n :| 0 <= n < |req.lines| && (holds[k].sku, holds[k].quantity) == (req.lines[n].sku, req.lines[n].quantity);
      assert IsLine(holds[k], req, n);
    }
  }

  /** Row `first` is the shipment's first. */
  ghost predicate IsFirstRow(holds: seq<Hold>, s: Id, first: nat) {
    first < |holds| && holds[first].shipment == s && forall k :: 0 <= k < first ==> holds[k].shipment != s
  }

  lemma {:induction false} FirstExistingRow(holds: seq<Hold>, s: Id, first: nat)
    requires IsFirstRow(holds, s, first)
    ensures ExistingRows(holds, s) != [] && ExistingRows(holds, s)[0] == holds[first]
    decreases |holds|
  {
    var n := |holds| - 1;
    if first < n {
      FirstExistingRow(holds[..n], s, first);
    } else {
      ExistingRowsIff(holds[..n], s);
    }
  }

  predicate AllRows(holds: seq<Hold>, s: Id, status: Status) {
    forall k :: 0 <= k < |holds| && holds[k].shipment == s ==> holds[k].status == status
  }

  ghost predicate AllConfirmed(holds: seq<Hold>, s: Id) {
    forall k :: 0 <= k < |holds| && holds[k].shipment == s ==> holds[k].confirmedAt.Some?
  }

  /** What a request for a shipment with rows is answered. It is refused exactly when the rows are not its lines, or the
      first of them is in another warehouse. Otherwise the answer says COMMITTED if every row is, RELEASED if every row
      is, HELD in all other cases, and that the hold is confirmed if every row is. The tables stay as they are. */
  lemma RepeatIsAnswered(db: Db, req: Request, cat: Catalog, window: int, now: Time, first: nat)
    requires Inv(db) && ValidRequest(req) && IsFirstRow(db.holds, req.shipment, first)
    ensures var (after, outcome) := Reserve(db, req, cat, window, now);
            var same := ListedExactly(db.holds, req) && db.holds[first].warehouse == req.warehouse;
            && after == db
            && (if same then outcome.Replayed? else outcome == Refused(ReservationMismatch))
            && (same ==>
                  && (outcome.status == Committed <==> AllRows(db.holds, req.shipment, Committed))
                  && (outcome.status == Released <==> AllRows(db.holds, req.shipment, Released))
                  && (outcome.confirmed <==> AllConfirmed(db.holds, req.shipment)))
  {
    var rows := ExistingRows(db.holds, req.shipment);
    FirstExistingRow(db.holds, req.shipment, first);
    SameLinesIff(db.holds, req);
    ExistingRowsAre(db.holds, req.shipment);
    RowsAgreeWith(db.holds, req.shipment, rows);
  }

  lemma RowsAgreeWith(holds: seq<Hold>, s: Id, rows: seq<Hold>)
    requires forall k :: 0 <= k < |holds| && holds[k].shipment == s ==> holds[k] in rows
    requires forall h :: h in rows ==> h in holds && h.shipment == s
    ensures forall status :: AllRows(holds, s, status) <==> forall j :: 0 <= j < |rows| ==> rows[j].status == status
    ensures AllConfirmed(holds, s) <==> forall j :: 0 <= j < |rows| ==> rows[j].confirmedAt.Some?
  {
    forall j | 0 <= j < |rows| ensures exists k :: 0 <= k < |holds| && holds[k] == rows[j] && holds[k].shipment == s {
      assert rows[j] in rows;
    }
  }

  lemma {:induction false} CountPicksIff(holds: seq<Hold>, s: Id)
    ensures CountPicks(holds, HeldFor(s)) == 0 <==> !HasRow(holds, s, Held)
  {
    if holds != [] {
      var n := |holds| - 1;
      CountPicksIff(holds[..n], s);
      if HasRow(holds, s, Held) && !Picks(HeldFor(s), holds[n]) {
        var k :| 0 <= k < |holds| && holds[k].shipment == s && holds[k].status == Held;
        assert holds[..n][k] == holds[k];
      }
      if HasRow(holds[..n], s, Held) {
        var k :| 0 <= k < n && holds[..n][k].shipment == s && holds[..n][k].status == Held;
        assert holds[k].shipment == s && holds[k].status == Held;
      }
    }
  }

  lemma {:induction false} ExistingRowsAre(holds: seq<Hold>, s: Id)
    ensures forall k :: 0 <= k < |holds| && holds[k].shipment == s ==> holds[k] in ExistingRows(holds, s)
    ensures forall h :: h in ExistingRows(holds, s) ==> h in holds && h.shipment == s
  {
    if holds != [] {
      var n := |holds| - 1;
      ExistingRowsAre(holds[..n], s);
      forall k | 0 <= k < |holds| && holds[k].shipment == s ensures holds[k] in ExistingRows(holds, s) {
        if k < n {
          assert holds[..n][k] == holds[k];
        }
      }
    }
  }
}
