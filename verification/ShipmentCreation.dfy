/** What creating a shipment does to the stock, whichever step fails: the hold, its compensation, its expiry. */
module ShipmentCreation {
  import opened Common
  import T = StockTables
  import Ops = StockOps
  import opened StockInvariant
  import opened StockEffects
  import opened StockRuns
  import opened StockOnce
  import LS = LifecycleStock
  import SM = StateMachine

  /** What became of the call that reserves the stock. */
  datatype Reply = NotSent | Lost | Answered

  /** What one create meets: the warehouse replica, inventory's catalog and clock, the call, the inserts and the commit,
      and for a compensation its clock reading and whether inventory can be reached. */
  datatype Attempt = Attempt(operational: bool, cat: Ops.Catalog, now: Time, reply: Reply, inserted: bool,
                             committed: bool,
                             later: Time, reachable: bool)

  /** The stock when create has asked for its hold, with or without learning the answer. */
  function AfterAsking(stock: T.Db, req: Ops.Request, window: int, a: Attempt): T.Db
    requires T.Constraints(stock) && Ops.ValidRequest(req)
  {
    if a.operational && !a.reply.NotSent? then Ops.Reserve(stock, req, a.cat, window, a.now).0 else stock
  }

  /** create has learned that inventory holds its stock. */
  predicate TakesHold(stock: T.Db, req: Ops.Request, window: int, a: Attempt)
    requires T.Constraints(stock) && Ops.ValidRequest(req)
  {
    a.operational && a.reply.Answered? && !Ops.Reserve(stock, req, a.cat, window, a.now).1.Refused?
  }

  predicate Records(known: set<Id>, stock: T.Db, req: Ops.Request, window: int, a: Attempt)
    requires T.Constraints(stock) && Ops.ValidRequest(req)
  {
    TakesHold(stock, req, window, a) && a.inserted && a.committed && req.shipment !in known
  }

  /** The stock after the whole endpoint, where the shipments `known` are recorded already. */
  function AfterCreate(known: set<Id>, stock: T.Db, req: Ops.Request, window: int, a: Attempt): T.Db
    requires Inv(stock) && Ops.ValidRequest(req)
  {
    AskingKeepsInv(stock, req, window, a);
    var asked := AfterAsking(stock, req, window, a);
    if TakesHold(stock, req, window, a) && !Records(known, stock, req, window, a) && a.reachable
    then Ops.Release(asked, req.shipment, a.later).0 else asked
  }

  lemma AskingKeepsInv(stock: T.Db, req: Ops.Request, window: int, a: Attempt)
    requires Inv(stock) && Ops.ValidRequest(req)
    ensures Inv(AfterAsking(stock, req, window, a))
  {
    ApplyKeepsInv(stock, Ops.DoReserve(req, a.cat, window, a.now));
  }

  // ---------------------------------------------------------------- rows that were there before

  ghost predicate KeepsRowsOf(before: seq<T.Hold>, after: seq<T.Hold>, s: Id) {
    |before| <= |after| && forall k :: 0 <= k < |before| && before[k].shipment == s ==> after[k] == before[k]
  }

  lemma AskingKeepsRows(stock: T.Db, req: Ops.Request, window: int, a: Attempt)
    requires Inv(stock) && Ops.ValidRequest(req)
    ensures KeepsRowsOf(stock.holds, AfterAsking(stock, req, window, a).holds, req.shipment)
  {
    ExistingRowsIff(stock.holds, req.shipment);
    ApplyRows(stock, Ops.DoReserve(req, a.cat, window, a.now));
  }

  lemma ReleaseRewritesHeld(stock: T.Db, s: Id, later: Time)
    requires Inv(stock)
    ensures var after := Ops.Release(stock, s, later).0;
            && |after.holds| == |stock.holds|
            && forall k :: 0 <= k < |stock.holds| ==>
                 after.holds[k] == if stock.holds[k].shipment == s && stock.holds[k].status == T.Held
                                   then TouchedRow(Ops.Releasing, stock.holds[k], later) else stock.holds[k]
  {
    LS.ReleaseMoves(stock, s, later);
    TouchAllIs(stock, T.HeldFor(s), Ops.Releasing, later);
  }

  /** A create leaves the rows its shipment had before as they were, unless all of this is so: it took the hold, it was
      not recorded, inventory could be reached for the compensation, and some of those rows were HELD. Compensation
      releases by shipment, not by attempt: a create repeated for a recorded shipment gives back the stock of the first
      one. */
  lemma CreateSparesEarlierHoldsIff(known: set<Id>, stock: T.Db, req: Ops.Request, window: int, a: Attempt)
    requires Inv(stock) && Ops.ValidRequest(req)
    ensures KeepsRowsOf(stock.holds, AfterCreate(known, stock, req, window, a).holds, req.shipment) <==>
            !(&& TakesHold(stock, req, window, a) && (req.shipment in known || !a.inserted || !a.committed)
              && a.reachable && Ops.HasRow(stock.holds, req.shipment, T.Held))
  {
    var asked := AfterAsking(stock, req, window, a);
    AskingKeepsInv(stock, req, window, a);
    AskingKeepsRows(stock, req, window, a);
    ReleaseRewritesHeld(asked, req.shipment, a.later);
    if Ops.HasRow(stock.holds, req.shipment, T.Held) {
      var k :| 0 <= k < |stock.holds| && stock.holds[k].shipment == req.shipment && stock.holds[k].status == T.Held;
      assert asked.holds[k] == stock.holds[k];
    }
  }

  lemma DispatchRefusedIff(stock: T.Db, s: Id, now: Time)
    requires Inv(stock)
    ensures var outcome := LS.OnMessage(stock, s, LS.StatusChanged(SM.DISPATCHED), now).1;
            && (outcome.Refused? <==> !Ops.HasRow(stock.holds, s, T.Held) && !Ops.HasRow(stock.holds, s, T.Committed))
            && (outcome.Refused? ==> outcome.why == Ops.NothingToCommit)
  {
    LS.CommitMoves(stock, s, now);
    CountPicksIff(stock.holds, s);
  }

  /** A create repeated for a recorded shipment with rows changes no table but by its compensation. */
  lemma RepeatedCreateIs(known: set<Id>, stock: T.Db, req: Ops.Request, window: int, a: Attempt)
    requires Inv(stock) && Ops.ValidRequest(req) && req.shipment in known && !Unlisted(stock.holds, req.shipment)
    ensures AfterCreate(known, stock, req, window, a) ==
            if TakesHold(stock, req, window, a) && a.reachable then Ops.Release(stock, req.shipment, a.later).0
            else stock
    ensures Inv(AfterCreate(known, stock, req, window, a))
  {
    ExistingRowsIff(stock.holds, req.shipment);
    ApplyKeepsInv(stock, Ops.DoRelease(req.shipment, a.later));
  }

  lemma ReleasedStock(stock: T.Db, s: Id, later: Time)
    requires Inv(stock) && !Unlisted(stock.holds, s) && LS.AllHeld(stock.holds, s)
    ensures var after := Ops.Release(stock, s, later).0;
            && !Unlisted(after.holds, s)
            && forall k :: 0 <= k < |after.holds| && after.holds[k].shipment == s ==>
                 after.holds[k].status == T.Released
  {
    ReleaseRewritesHeld(stock, s, later);
    var k :| 0 <= k < |stock.holds| && stock.holds[k].shipment == s;
    assert Ops.Release(stock, s, later).0.holds[k].shipment == s;
  }

  /** The damage: for a recorded shipment whose stock is all HELD, the dispatch that should take it is refused after a
      repeated create exactly when that create took the hold and could reach inventory to give it back. */
  lemma DispatchRefusedAfterCreateIff(known: set<Id>, stock: T.Db, req: Ops.Request, window: int, a: Attempt, now: Time)
    requires Inv(stock) && Ops.ValidRequest(req) && req.shipment in known
    requires !Unlisted(stock.holds, req.shipment) && LS.AllHeld(stock.holds, req.shipment)
    ensures Inv(AfterCreate(known, stock, req, window, a))
    ensures var outcome := LS.OnMessage(AfterCreate(known, stock, req, window, a), req.shipment,
                                        LS.StatusChanged(SM.DISPATCHED), now).1;
            && (outcome.Refused? <==> TakesHold(stock, req, window, a) && a.reachable)
            && (outcome.Refused? ==> outcome.why == Ops.NothingToCommit)
  {
    RepeatedCreateIs(known, stock, req, window, a);
    DispatchRefusedIff(AfterCreate(known, stock, req, window, a), req.shipment, now);
    if TakesHold(stock, req, window, a) && a.reachable {
      ReleasedStock(stock, req.shipment, a.later);
    } else {
      var k :| 0 <= k < |stock.holds| && stock.holds[k].shipment == req.shipment;
      assert stock.holds[k].status == T.Held;
    }
  }

  /** What a create of a shipment without rows leaves held. It has rows if its request reached inventory and was
      accepted. They stay HELD if the shipment was recorded, if the answer was lost, so that nobody knows of them, or if
      inventory could not be reached again; otherwise they have been released. */
  lemma CreateHoldsIff(known: set<Id>, stock: T.Db, req: Ops.Request, window: int, a: Attempt)
    requires Inv(stock) && Ops.ValidRequest(req) && Unlisted(stock.holds, req.shipment)
    ensures var after := AfterCreate(known, stock, req, window, a);
            var accepted := Ops.Reserve(stock, req, a.cat, window, a.now).1.Created?;
            var recorded := a.reply == Answered && a.inserted && a.committed && req.shipment !in known;
            && (Unlisted(after.holds, req.shipment) <==> !(a.operational && a.reply != NotSent && accepted))
            && (!Unlisted(after.holds, req.shipment) ==>
                  if recorded || a.reply == Lost || !a.reachable then LS.AllHeld(after.holds, req.shipment)
                  else AllRows(after.holds, req.shipment, T.Released))
  {
    var outcome := Ops.Reserve(stock, req, a.cat, window, a.now).1;
    ExistingRowsIff(stock.holds, req.shipment);
    if outcome.Refused? {
      ReserveLockedIs(stock, req, a.cat, window, a.now);
    } else {
      ReservedMatches(stock, req, a.cat, window, a.now);
      var placed := Ops.Reserve(stock, req, a.cat, window, a.now).0;
      ListedIsNotUnlisted(placed.holds, req);
      ReleasedStock(placed, req.shipment, a.later);
    }
  }

  // ---------------------------------------------------------------- creating twice

  /** The shipment's rows are this request's, in its warehouse. */
  ghost predicate Matches(holds: seq<T.Hold>, req: Ops.Request) {
    ListedExactly(holds, req)
    && forall k :: 0 <= k < |holds| && holds[k].shipment == req.shipment ==> holds[k].warehouse == req.warehouse
  }

  /** The same request again is replayed, whatever became of its rows. */
  lemma MatchingReplays(stock: T.Db, req: Ops.Request, cat: Ops.Catalog, window: int, now: Time)
    requires Inv(stock) && Ops.ValidRequest(req) && Matches(stock.holds, req)
    ensures Ops.Reserve(stock, req, cat, window, now).1.Replayed?
  {
    ListedIsNotUnlisted(stock.holds, req);
    var first := FirstRow(stock.holds, req.shipment);
    RepeatIsAnswered(stock, req, cat, window, now, first);
  }

  lemma {:induction false} FirstRow(holds: seq<T.Hold>, s: Id) returns (first: nat)
    requires !Unlisted(holds, s)
    ensures IsFirstRow(holds, s, first)
  {
    var n := |holds| - 1;
    if Unlisted(holds[..n], s) {
      first := n;
    } else {
      first := FirstRow(holds[..n], s);
    }
  }

  /** An accepted first reserve leaves exactly its own lines, all HELD. */
  lemma ReservedMatches(db: T.Db, req: Ops.Request, cat: Ops.Catalog, window: int, now: Time)
    requires Inv(db) && Ops.ValidRequest(req) && Unlisted(db.holds, req.shipment)
    requires !Ops.Reserve(db, req, cat, window, now).1.Refused?
    ensures var placed := Ops.Reserve(db, req, cat, window, now).0;
            && Ops.Reserve(db, req, cat, window, now).1.Created?
            && Inv(placed) && Matches(placed.holds, req) && LS.AllHeld(placed.holds, req.shipment)
  {
    ExistingRowsIff(db.holds, req.shipment);
    ReserveDecides(db, req, cat, window, now);
    StepListing(db, Ops.DoReserve(req, cat, window, now), req);
    ReservedRows(db, req, cat, window, now);
    CreatedRows(db, req, cat, window, now);
    EarlierRowsAreOthers(Freed(db, req, now).holds, Ops.Reserve(db, req, cat, window, now).0.holds, req.shipment);
  }

  lemma EarlierRowsAreOthers(freed: seq<T.Hold>, placed: seq<T.Hold>, s: Id)
    requires Unlisted(freed, s) && |freed| <= |placed| && placed[..|freed|] == freed
    ensures forall k :: 0 <= k < |freed| ==> placed[k].shipment != s
  {
    forall k | 0 <= k < |freed| ensures placed[k].shipment != s {
      assert placed[..|freed|][k] == placed[k];
    }
  }

  lemma ConfirmKeepsMatch(db: T.Db, req: Ops.Request, now: Time)
    requires Inv(db) && Ops.ValidRequest(req) && Matches(db.holds, req) && LS.AllHeld(db.holds, req.shipment)
    ensures var after := Ops.Confirm(db, req.shipment, now).0;
            && Inv(after) && Matches(after.holds, req) && LS.AllHeld(after.holds, req.shipment)
            && !Unlisted(after.holds, req.shipment)
  {
    var after := Ops.Confirm(db, req.shipment, now).0;
    ApplyKeepsInv(db, Ops.DoConfirm(req.shipment, now));
    TouchAllIs(db, T.HeldFor(req.shipment), Ops.Confirming, now);
    ListedExactlyKept(db.holds, after.holds, req);
    ListedIsNotUnlisted(after.holds, req);
  }

  /** Whatever request is created, recorded and confirmed: a second create under its shipment id that is answered takes
      its stock back, and the shipment, still on record, can no longer be dispatched. */
  lemma CreatingTwiceStrandsTheShipment(known: set<Id>, stock: T.Db, req: Ops.Request, window: int, first: Attempt,
                                        confirmedAt: Time,
                                        second: Attempt, now: Time)
    requires Inv(stock) && Ops.ValidRequest(req) && Unlisted(stock.holds, req.shipment)
    requires Records(known, stock, req, window, first)
    requires second.operational && second.reply.Answered? && second.reachable
    ensures var created := AfterCreate(known, stock, req, window, first);
            && Inv(created)
            && var confirmed := Ops.Confirm(created, req.shipment, confirmedAt).0;
               && Inv(confirmed) && !Records(known + {req.shipment}, confirmed, req, window, second)
               && var after := AfterCreate(known + {req.shipment}, confirmed, req, window, second);
                  && Inv(after) && !Unlisted(after.holds, req.shipment)
                  && (forall k :: 0 <= k < |after.holds| && after.holds[k].shipment == req.shipment ==>
                        after.holds[k].status == T.Released)
                  && LS.OnMessage(after, req.shipment, LS.StatusChanged(SM.DISPATCHED), now).1 ==
                       Ops.Refused(Ops.NothingToCommit)
  {
    ReservedMatches(stock, req, first.cat, window, first.now);
    var created := AfterCreate(known, stock, req, window, first);
    ConfirmKeepsMatch(created, req, confirmedAt);
    var confirmed := Ops.Confirm(created, req.shipment, confirmedAt).0;
    MatchingReplays(confirmed, req, second.cat, window, second.now);
    DispatchRefusedAfterCreateIff(known + {req.shipment}, confirmed, req, window, second, now);
    RepeatedCreateIs(known + {req.shipment}, confirmed, req, window, second);
    ReleasedStock(confirmed, req.shipment, second.later);
  }

  lemma OpenFive(cat: Ops.Catalog)
    requires cat == Ops.Catalog(map[1 := true], map[2 := true])
    ensures var open := Ops.DoOpen(7, 1, 2, 5, cat, {2});
            && AdmissibleRun(T.EMPTY, [open])
            && Run(T.EMPTY, [open]).items == map[7 := T.Item(1, 2, 5, 0, 1)] && Run(T.EMPTY, [open]).holds == []
  {
    var open := Ops.DoOpen(7, 1, 2, 5, cat, {2});
    ApplyKeepsInv(T.EMPTY, open);
    var stock := Ops.Apply(T.EMPTY, open).0;
    assert Run(stock, []) == stock && [open][1..] == [];
  }

  lemma ThreeFit(stock: T.Db, req: Ops.Request, cat: Ops.Catalog)
    requires stock.items == map[7 := T.Item(1, 2, 5, 0, 1)] && stock.holds == []
    requires cat == Ops.Catalog(map[1 := true], map[2 := true]) && req == Ops.Request(9, 1, [Ops.Line(2, 3)])
    ensures Ops.ValidRequest(req) && Ops.Gate(req, cat).None?
    ensures AllHavePositions(stock, req) && AllFit(stock, req, 0) && !AlreadyListed(stock.holds, req)
  {
    assert req.lines[0] == Ops.Line(2, 3);
    assert IsPosition(stock.items, 1, 2, 7) && Takeable(stock, 7, 0) == 5;
    assert HasPosition(stock, req, 0) && LineFits(stock, req, 0, 0);
  }

  lemma TakeThree(stock: T.Db, req: Ops.Request, cat: Ops.Catalog, window: int)
    requires Inv(stock) && Ops.ValidRequest(req) && stock.holds == [] && Ops.Gate(req, cat).None?
    requires AllHavePositions(stock, req) && AllFit(stock, req, 0) && !AlreadyListed(stock.holds, req)
    ensures Ops.Reserve(stock, req, cat, window, 0).1.Created?
  {
    ExistingRowsIff(stock.holds, req.shipment);
    ReserveDecides(stock, req, cat, window, 0);
  }

  /** It does happen: five pieces of one SKU and a request for three. */
  lemma CreatingTwiceHappens(window: int) returns (ops: seq<Ops.Op>, req: Ops.Request, a: Attempt)
    ensures AdmissibleRun(T.EMPTY, ops) && Ops.ValidRequest(req)
    ensures var stock := Run(T.EMPTY, ops);
            && Unlisted(stock.holds, req.shipment) && Records({}, stock, req, window, a)
            && a.operational && a.reply.Answered? && a.reachable
  {
    var cat := Ops.Catalog(map[1 := true], map[2 := true]);
    ops := [Ops.DoOpen(7, 1, 2, 5, cat, {2})];
    req := Ops.Request(9, 1, [Ops.Line(2, 3)]);
    a := Attempt(true, cat, 0, Answered, true, true, 0, true);
    OpenFive(cat);
    ThreeFit(Run(T.EMPTY, ops), req, cat);
    TakeThree(Run(T.EMPTY, ops), req, cat, window);
  }

  // ---------------------------------------- a create that comes to nothing leaves no stock behind

  lemma FreedUnlisted(db: T.Db, req: Ops.Request, cat: Ops.Catalog, window: int, now: Time)
    requires Inv(db) && Unlisted(db.holds, req.shipment)
    ensures |Freed(db, req, now).holds| == |db.holds| && Unlisted(Freed(db, req, now).holds, req.shipment)
            && Inv(Freed(db, req, now))
  {
    FreedRowsStep(db, Ops.DoReserve(req, cat, window, now));
    FreedIsReady(db, req, now);
  }

  /** An accepted reserve adds unconfirmed rows of its own shipment, and only those, to what expiry left. */
  lemma ReservedRows(db: T.Db, req: Ops.Request, cat: Ops.Catalog, window: int, now: Time)
    requires Inv(db) && Ops.ValidRequest(req) && Unlisted(db.holds, req.shipment)
    requires Ops.Reserve(db, req, cat, window, now).1.Created?
    ensures var placed, freed := Ops.Reserve(db, req, cat, window, now).0, Freed(db, req, now);
            && Inv(placed) && Inv(freed) && Unlisted(freed.holds, req.shipment)
            && |freed.holds| <= |placed.holds| && placed.holds[..|freed.holds|] == freed.holds
            && forall k :: |freed.holds| <= k < |placed.holds| ==>
                 && placed.holds[k].shipment == req.shipment && placed.holds[k].status == T.Held
                 && placed.holds[k].confirmedAt.None? && placed.holds[k].expiresAt == Some(now + window)
  {
    ExistingRowsIff(db.holds, req.shipment);
    ReserveLockedKeepsInv(db, req, cat, window, now);
    FreedUnlisted(db, req, cat, window, now);
    CreatedShape(db, req, cat, window, now);
    CreatedRows(db, req, cat, window, now);
  }

  /** What releasing leaves of rows of which only the new ones are the shipment's. */
  lemma ReleasedRows(freed: seq<T.Hold>, placed: T.Db, s: Id, later: Time)
    requires Inv(placed) && Unlisted(freed, s) && |freed| <= |placed.holds| && placed.holds[..|freed|] == freed
    requires forall k :: |freed| <= k < |placed.holds| ==>
               placed.holds[k].shipment == s && placed.holds[k].status == T.Held
    ensures var after := Ops.Release(placed, s, later).0;
            && |after.holds| == |placed.holds| && after.holds[..|freed|] == freed
            && (forall k :: |freed| <= k < |after.holds| ==> after.holds[k].status == T.Released)
            && !Ops.HasRow(after.holds, s, T.Held)
  {
    LS.ReleaseMoves(placed, s, later);
    TouchAllIs(placed, T.HeldFor(s), Ops.Releasing, later);
    var after := Ops.Release(placed, s, later).0;
    forall k | 0 <= k < |freed| ensures after.holds[k] == freed[k] {
      assert placed.holds[..|freed|][k] == placed.holds[k];
    }
    assert after.holds[..|freed|] == freed;
  }

  /** Compensating undoes the reserve: the shipment holds nothing, and every position is back to what it was once the
      lapsed holds that the reserve reclaimed are left out. */
  lemma CompensateUndoesReserve(db: T.Db, req: Ops.Request, cat: Ops.Catalog, window: int, now: Time, later: Time,
                                i: Id)
    requires Inv(db) && Ops.ValidRequest(req) && Unlisted(db.holds, req.shipment) && i in db.items
    requires Ops.Reserve(db, req, cat, window, now).1.Created?
    ensures Inv(Ops.Reserve(db, req, cat, window, now).0)
    ensures var after := Ops.Release(Ops.Reserve(db, req, cat, window, now).0, req.shipment, later).0;
            && !Ops.HasRow(after.holds, req.shipment, T.Held)
            && i in after.items && i in Freed(db, req, now).items
            && after.items[i].onHand == Freed(db, req, now).items[i].onHand
            && after.items[i].reserved == Freed(db, req, now).items[i].reserved
  {
    var placed, freed := Ops.Reserve(db, req, cat, window, now).0, Freed(db, req, now);
    ReservedRows(db, req, cat, window, now);
    ReleasedRows(freed.holds, placed, req.shipment, later);
    PlacedPosition(db, req, cat, window, now, i);
    LS.ReleaseMoves(placed, req.shipment, later);
    ApplyKeepsInv(placed, Ops.DoRelease(req.shipment, later));
    var after := Ops.Release(placed, req.shipment, later).0;
    ReleasedRowsWeighNothing(freed.holds, after.holds, i);
    assert PositionBooked(freed, i) && PositionBooked(after, i);
  }

  lemma PlacedPosition(db: T.Db, req: Ops.Request, cat: Ops.Catalog, window: int, now: Time, i: Id)
    requires Inv(db) && Ops.ValidRequest(req) && Unlisted(db.holds, req.shipment) && i in db.items
    requires Ops.Reserve(db, req, cat, window, now).1.Created?
    ensures var placed := Ops.Reserve(db, req, cat, window, now).0;
            i in placed.items && i in Freed(db, req, now).items
            && placed.items[i].onHand == Freed(db, req, now).items[i].onHand
  {
    ExistingRowsIff(db.holds, req.shipment);
    CreatedItem(db, req, cat, window, now, i);
  }

  lemma {:induction false} ReleasedRowsWeighNothing(kept: seq<T.Hold>, all: seq<T.Hold>, i: Id)
    requires |kept| <= |all| && all[..|kept|] == kept
    requires forall k :: |kept| <= k < |all| ==> all[k].status == T.Released
    ensures T.Total(all, T.InStatus(i, T.Held)) == T.Total(kept, T.InStatus(i, T.Held))
    decreases |all|
  {
    if |kept| == |all| {
      assert kept == all;
    } else {
      assert all[..|all| - 1][..|kept|] == kept;
      ReleasedRowsWeighNothing(kept, all[..|all| - 1], i);
    }
  }

  // ---------------------------------------------------------------- meanwhile

  /** Nobody commits the shipment. */
  ghost predicate NoCommitOf(ops: seq<Ops.Op>, s: Id) {
    forall k :: 0 <= k < |ops| && ops[k].DoCommit? ==> ops[k].shipment != s
  }

  ghost predicate NoConfirmOf(ops: seq<Ops.Op>, s: Id) {
    forall k :: 0 <= k < |ops| && ops[k].DoConfirm? ==> ops[k].shipment != s
  }

  lemma NewRowsAreHeld(db: T.Db, op: Ops.Op)
    requires Inv(db) && Ops.Admissible(db, op)
    ensures var after := Ops.Apply(db, op).0.holds;
            |db.holds| <= |after| && forall k :: |db.holds| <= k < |after| ==> after[k].status == T.Held
  {
    ApplyRows(db, op);
    if Ops.Apply(db, op).1.Created? {
      ExistingRowsIff(db.holds, op.req.shipment);
      CreatedRows(db, op.req, op.cat, op.window, op.now);
    } else {
      NotCreatedKeepsRows(db, op);
    }
  }

  lemma StepKeepsUncommitted(db: T.Db, op: Ops.Op, s: Id)
    requires Inv(db) && Ops.Admissible(db, op) && !Ops.HasRow(db.holds, s, T.Committed)
             && (op.DoCommit? ==> op.shipment != s)
    ensures !Ops.HasRow(Ops.Apply(db, op).0.holds, s, T.Committed)
  {
    ApplyRows(db, op);
    NewRowsAreHeld(db, op);
    RowsStayUncommitted(op, db.holds, Ops.Apply(db, op).0.holds, s);
  }

  lemma RowsStayUncommitted(op: Ops.Op, before: seq<T.Hold>, after: seq<T.Hold>, s: Id)
    requires RowsStep(op, before, after) && !Ops.HasRow(before, s, T.Committed) && (op.DoCommit? ==> op.shipment != s)
    requires forall k :: |before| <= k < |after| ==> after[k].status == T.Held
    ensures !Ops.HasRow(after, s, T.Committed)
  {
    forall k | 0 <= k < |after| && after[k].shipment == s ensures after[k].status != T.Committed {
      if k < |before| {
        assert RowStep(op, before[k], after[k]) && (before[k].shipment == s ==> before[k].status != T.Committed);
      }
    }
  }

  lemma {:induction false} RunKeepsUncommitted(db: T.Db, ops: seq<Ops.Op>, s: Id)
    requires Inv(db) && AdmissibleRun(db, ops) && !Ops.HasRow(db.holds, s, T.Committed) && NoCommitOf(ops, s)
    ensures !Ops.HasRow(Run(db, ops).holds, s, T.Committed)
    decreases |ops|
  {
    if ops != [] {
      StepKeepsUncommitted(db, ops[0], s);
      ApplyKeepsInv(db, ops[0]);
      RunKeepsUncommitted(Ops.Apply(db, ops[0]).0, ops[1..], s);
    }
  }

  lemma {:induction false} NoRowsNoShare(holds: seq<T.Hold>, i: Id, s: Id, status: T.Status)
    requires forall k :: 0 <= k < |holds| && holds[k].shipment == s ==> holds[k].status != status
    ensures T.Total(holds, T.ForShipmentIn(i, s, status)) == 0
  {
    if holds != [] {
      NoRowsNoShare(holds[..|holds| - 1], i, s, status);
    }
  }

  /** Whatever ran in between, as long as nobody committed the shipment: a compensation leaves nothing of the create
      behind. All of the shipment's rows are RELEASED, it has no share in any position's reservation, and nothing was
      dispatched for it. */
  lemma CompensationLeavesNothing(db: T.Db, req: Ops.Request, cat: Ops.Catalog, window: int, now: Time,
                                  ops: seq<Ops.Op>, later: Time,
                                  i: Id)
    requires Inv(db) && Ops.ValidRequest(req) && Unlisted(db.holds, req.shipment)
    requires Ops.Reserve(db, req, cat, window, now).1.Created? && NoCommitOf(ops, req.shipment)
    requires Inv(Ops.Reserve(db, req, cat, window, now).0)
             && AdmissibleRun(Ops.Reserve(db, req, cat, window, now).0, ops)
    ensures var after := Ops.Release(Run(Ops.Reserve(db, req, cat, window, now).0, ops), req.shipment, later).0;
            && (forall k :: 0 <= k < |after.holds| && after.holds[k].shipment == req.shipment ==>
                  after.holds[k].status == T.Released)
            && (i in after.items ==> after.items[i].reserved == T.Total(after.holds, T.InStatus(i, T.Held)))
            && T.Total(after.holds, T.ForShipmentIn(i, req.shipment, T.Held)) == 0
            && T.Balance(after.ledger, T.DispatchedFor(i, req.shipment)) == 0
  {
    var s, placed := req.shipment, Ops.Reserve(db, req, cat, window, now).0;
    PlacedIsUncommitted(db, req, cat, window, now);
    RunKeepsUncommitted(placed, ops, s);
    ReleaseLeavesNothing(Run(placed, ops), s, later, i);
  }

  lemma ReleaseLeavesNothing(db: T.Db, s: Id, later: Time, i: Id)
    requires Inv(db) && !Ops.HasRow(db.holds, s, T.Committed)
    ensures var after := Ops.Release(db, s, later).0;
            && (forall k :: 0 <= k < |after.holds| && after.holds[k].shipment == s ==>
                  after.holds[k].status == T.Released)
            && (i in after.items ==> after.items[i].reserved == T.Total(after.holds, T.InStatus(i, T.Held)))
            && T.Total(after.holds, T.ForShipmentIn(i, s, T.Held)) == 0
            && T.Balance(after.ledger, T.DispatchedFor(i, s)) == 0
  {
    var after := Ops.Release(db, s, later).0;
    ReleaseRewritesHeld(db, s, later);
    ApplyKeepsInv(db, Ops.DoRelease(s, later));
    forall k | 0 <= k < |after.holds| && after.holds[k].shipment == s ensures after.holds[k].status == T.Released {
      assert db.holds[k].shipment == s && db.holds[k].status != T.Committed;
    }
    NoRowsNoShare(after.holds, i, s, T.Held);
    NoRowsNoShare(after.holds, i, s, T.Committed);
    assert DispatchBookedFor(after, i, s) && (i in after.items ==> PositionBooked(after, i));
  }

  lemma PlacedIsUncommitted(db: T.Db, req: Ops.Request, cat: Ops.Catalog, window: int, now: Time)
    requires Inv(db) && Ops.ValidRequest(req) && Unlisted(db.holds, req.shipment)
    requires Ops.Reserve(db, req, cat, window, now).1.Created?
    ensures !Ops.HasRow(Ops.Reserve(db, req, cat, window, now).0.holds, req.shipment, T.Committed)
  {
    ReservedMatches(db, req, cat, window, now);
  }

  /** An unconfirmed hold waits for its expiry, or has been released. */
  predicate WaitsOrGone(h: T.Hold, until: Time) {
    h.status == T.Released || (h.status == T.Held && h.confirmedAt.None? && h.expiresAt == Some(until))
  }

  /** The shipment's rows among the first n. */
  ghost predicate FirstRows(holds: seq<T.Hold>, n: nat, s: Id, until: Time) {
    n <= |holds| && forall k :: 0 <= k < n && holds[k].shipment == s ==> WaitsOrGone(holds[k], until)
  }

  lemma {:induction false} RunKeepsWaiting(db: T.Db, ops: seq<Ops.Op>, n: nat, s: Id, until: Time)
    requires Inv(db) && AdmissibleRun(db, ops) && FirstRows(db.holds, n, s, until) && NoCommitOf(ops, s)
             && NoConfirmOf(ops, s)
    ensures FirstRows(Run(db, ops).holds, n, s, until)
    ensures RowsFinal(db.holds, Run(db, ops).holds)
    decreases |ops|
  {
    StatusesOnlyLeaveHeld(db, ops);
    if ops != [] {
      var next := Ops.Apply(db, ops[0]).0;
      ApplyKeepsInv(db, ops[0]);
      ApplyRows(db, ops[0]);
      forall k | 0 <= k < n && next.holds[k].shipment == s ensures WaitsOrGone(next.holds[k], until) {
        assert RowStep(ops[0], db.holds[k], next.holds[k]);
      }
      RunKeepsWaiting(next, ops[1..], n, s, until);
    }
  }

  /** And if inventory cannot be reached for the compensation, the hold lapses: whatever ran in between, as long as
      nobody confirmed or committed the shipment, a sweep after the window finds or makes every row of the create
      RELEASED. */
  lemma UnconfirmedHoldIsReclaimed(db: T.Db, req: Ops.Request, cat: Ops.Catalog, window: int, now: Time,
                                   ops: seq<Ops.Op>, later: Time)
    requires Inv(db) && Ops.ValidRequest(req) && Unlisted(db.holds, req.shipment) && now + window <= later
    requires Ops.Reserve(db, req, cat, window, now).1.Created?
    requires NoCommitOf(ops, req.shipment) && NoConfirmOf(ops, req.shipment)
    requires Inv(Ops.Reserve(db, req, cat, window, now).0)
             && AdmissibleRun(Ops.Reserve(db, req, cat, window, now).0, ops)
    ensures var placed := Ops.Reserve(db, req, cat, window, now).0;
            var after := Ops.Sweep(Run(placed, ops), None, later).0;
            && |placed.holds| <= |after.holds|
            && forall k :: 0 <= k < |placed.holds| && placed.holds[k].shipment == req.shipment ==>
                 after.holds[k].shipment == req.shipment && after.holds[k].status == T.Released
  {
    var s, placed, until := req.shipment, Ops.Reserve(db, req, cat, window, now).0, now + window;
    PlacedWait(db, req, cat, window, now);
    RunKeepsWaiting(placed, ops, |placed.holds|, s, until);
    var run := Run(placed, ops);
    SweepReclaims(run, |placed.holds|, s, until, later);
  }

  lemma PlacedWait(db: T.Db, req: Ops.Request, cat: Ops.Catalog, window: int, now: Time)
    requires Inv(db) && Ops.ValidRequest(req) && Unlisted(db.holds, req.shipment)
    requires Ops.Reserve(db, req, cat, window, now).1.Created?
    ensures var placed := Ops.Reserve(db, req, cat, window, now).0;
            Inv(placed) && FirstRows(placed.holds, |placed.holds|, req.shipment, now + window)
  {
    var placed, freed := Ops.Reserve(db, req, cat, window, now).0, Freed(db, req, now);
    ReservedRows(db, req, cat, window, now);
    EarlierRowsAreOthers(freed.holds, placed.holds, req.shipment);
  }

  lemma SweepReclaims(db: T.Db, n: nat, s: Id, until: Time, later: Time)
    requires Inv(db) && FirstRows(db.holds, n, s, until) && until <= later
    ensures var after := Ops.Sweep(db, None, later).0;
            && |after.holds| == |db.holds|
            && forall k :: 0 <= k < n && db.holds[k].shipment == s ==>
                 after.holds[k].shipment == s && after.holds[k].status == T.Released
  {
    SweepIsCompleteAndConfined(db, None, later);
  }

  // ---------------------------------------------------------------- the hold is there when it is confirmed

  function ClockOf(op: Ops.Op): Option<Time> {
    match op
    case DoSweep(_, now) => Some(now)
    case DoReserve(_, _, _, now) => Some(now)
    case DoReserveRaced(_, _, _, now) => Some(now)
    case _ => None
  }

  /** Before the window ends, nothing but other shipments' business and repeats of the request. */
  ghost predicate Early(db: T.Db, ops: seq<Ops.Op>, s: Id, until: Time)
    requires Inv(db) && AdmissibleRun(db, ops)
    decreases |ops|
  {
    ops == [] ||
    (&& LS.Calm(db, s, ops[0]) && (ClockOf(ops[0]).Some? ==> ClockOf(ops[0]).value < until)
     && (ops[0].DoConfirm? ==> ops[0].shipment != s)
     && (ApplyKeepsInv(db, ops[0]); Early(Ops.Apply(db, ops[0]).0, ops[1..], s, until)))
  }

  /** The shipment has rows, and all of them are HELD and wait for confirmation. */
  ghost predicate Waiting(holds: seq<T.Hold>, s: Id, until: Time) {
    && !Unlisted(holds, s)
    && forall k :: 0 <= k < |holds| && holds[k].shipment == s ==>
         holds[k].status == T.Held && holds[k].confirmedAt.None? && holds[k].expiresAt == Some(until)
  }

  lemma EarlyStepKeepsWaiting(db: T.Db, op: Ops.Op, s: Id, until: Time)
    requires Inv(db) && Ops.Admissible(db, op) && LS.Calm(db, s, op) && Waiting(db.holds, s, until)
    requires ClockOf(op).Some? ==> ClockOf(op).value < until
    requires op.DoConfirm? ==> op.shipment != s
    ensures Waiting(Ops.Apply(db, op).0.holds, s, until)
  {
    ApplyRows(db, op);
    LS.CalmAddsNoRows(db, s, op);
    RowsStayWaiting(op, db.holds, Ops.Apply(db, op).0.holds, s, until);
  }

  lemma RowsStayWaiting(op: Ops.Op, before: seq<T.Hold>, after: seq<T.Hold>, s: Id, until: Time)
    requires RowsStep(op, before, after) && Waiting(before, s, until)
    requires forall k :: |before| <= k < |after| ==> after[k].shipment != s
    requires op.DoCommit? || op.DoRelease? || op.DoConfirm? ==> op.shipment != s
    requires ClockOf(op).Some? ==> ClockOf(op).value < until
    ensures Waiting(after, s, until)
  {
    forall k | 0 <= k < |before| ensures before[k].shipment == s ==> after[k] == before[k] {
      assert RowStep(op, before[k], after[k]);
    }
    forall k | 0 <= k < |after| && after[k].shipment == s ensures k < |before| && before[k].shipment == s {
      assert k < |before| ==> RowStep(op, before[k], after[k]);
    }
    var k :| 0 <= k < |before| && before[k].shipment == s;
    assert after[k].shipment == s;
  }

  lemma {:induction false} RunKeepsHeld(db: T.Db, ops: seq<Ops.Op>, s: Id, until: Time)
    requires Inv(db) && AdmissibleRun(db, ops) && Early(db, ops, s, until) && Waiting(db.holds, s, until)
    ensures Waiting(Run(db, ops).holds, s, until)
    decreases |ops|
  {
    if ops != [] {
      EarlyStepKeepsWaiting(db, ops[0], s, until);
      ApplyKeepsInv(db, ops[0]);
      RunKeepsHeld(Ops.Apply(db, ops[0]).0, ops[1..], s, until);
    }
  }

  /** If the created message comes before the window ends, it finds the whole hold: through any run of other
      transactions and repeats of the request, every row of an accepted reserve is still HELD. */
  lemma HoldWaitsForConfirmation(db: T.Db, req: Ops.Request, cat: Ops.Catalog, window: int, now: Time, ops: seq<Ops.Op>)
    requires Inv(db) && Ops.ValidRequest(req) && Unlisted(db.holds, req.shipment)
    requires Ops.Reserve(db, req, cat, window, now).1.Created?
    requires Inv(Ops.Reserve(db, req, cat, window, now).0)
             && AdmissibleRun(Ops.Reserve(db, req, cat, window, now).0, ops)
    requires Early(Ops.Reserve(db, req, cat, window, now).0, ops, req.shipment, now + window)
    ensures var after := Run(Ops.Reserve(db, req, cat, window, now).0, ops);
            !Unlisted(after.holds, req.shipment) && LS.AllHeld(after.holds, req.shipment)
  {
    PlacedIsWaiting(db, req, cat, window, now);
    RunKeepsHeld(Ops.Reserve(db, req, cat, window, now).0, ops, req.shipment, now + window);
  }

  lemma PlacedIsWaiting(db: T.Db, req: Ops.Request, cat: Ops.Catalog, window: int, now: Time)
    requires Inv(db) && Ops.ValidRequest(req) && Unlisted(db.holds, req.shipment)
    requires Ops.Reserve(db, req, cat, window, now).1.Created?
    ensures Waiting(Ops.Reserve(db, req, cat, window, now).0.holds, req.shipment, now + window)
  {
    var placed, freed := Ops.Reserve(db, req, cat, window, now).0, Freed(db, req, now);
    ReservedRows(db, req, cat, window, now);
    EarlierRowsAreOthers(freed.holds, placed.holds, req.shipment);
    ExistingRowsIff(db.holds, req.shipment);
    CreatedRows(db, req, cat, window, now);
    assert placed.holds[|placed.holds| - 1].shipment == req.shipment;
  }
}
