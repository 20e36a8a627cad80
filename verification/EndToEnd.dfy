/** From the shipment's row to the stock: shipments, outbox, broker, consumers and stock as one system. */
module EndToEnd {
  import opened Common
  import SM = StateMachine
  import Ships = ShipmentRuns
  import D = Delivery
  import T = StockTables
  import LS = LifecycleStock
  import SI = StockInvariant
  import SO = StockOnce
  import Ops = StockOps

  // ---------------------------------------------------------------- events as outbox rows

  function Code(status: SM.Status): (code: Id)
    ensures 0 <= code <= 12 && Decoded(code) == status
  {
    match status
    case CREATED => 0
    case READY_FOR_DISPATCH => 1
    case DISPATCHING => 2
    case DISPATCH_FAILED => 3
    case DISPATCHED => 4
    case PICKED_UP => 5
    case IN_TRANSIT => 6
    case OUT_FOR_DELIVERY => 7
    case DELIVERED => 8
    case DELIVERY_FAILED => 9
    case RETURN_INITIATED => 10
    case RETURNED => 11
    case CANCELLED => 12
  }

  function Decoded(code: Id): SM.Status {
    if code == 0 then SM.CREATED else if code == 1 then SM.READY_FOR_DISPATCH else if code == 2 then SM.DISPATCHING
    else if code == 3 then SM.DISPATCH_FAILED else if code == 4 then SM.DISPATCHED else if code == 5 then SM.PICKED_UP
    else if code == 6 then SM.IN_TRANSIT else if code == 7 then SM.OUT_FOR_DELIVERY else if code == 8 then SM.DELIVERED
    else if code == 9 then SM.DELIVERY_FAILED else if code == 10 then SM.RETURN_INITIATED
    else if code == 11 then SM.RETURNED
    else SM.CANCELLED
  }

  /** An event's type and payload as the kind of an outbox row. */
  function KindOf(kind: Ships.EventKind, status: SM.Status): Id {
    match kind
    case Created => 0
    case StatusChanged => 1 + Code(status)
    case Updated => 14
  }

  /** What inventory has handlers for: shipment.created and shipment.status_changed. */
  const HANDLED: set<Id> := set k | 0 <= k <= 13

  /** The message a consumer reads back. */
  function MessageOf(kind: Id): LS.Message {
    if kind == 0 then LS.ShipmentCreated else LS.StatusChanged(Decoded(kind - 1))
  }

  /** An event as an outbox row; `place` is the broker's partition of a key. */
  function RowOf(e: Ships.Event, place: Id -> Id): (row: D.Row)
    ensures row.kind in HANDLED <==> e.kind != Ships.Updated
    ensures e.kind == Ships.Created ==> MessageOf(row.kind) == LS.ShipmentCreated
    ensures e.kind == Ships.StatusChanged ==> MessageOf(row.kind) == LS.StatusChanged(e.status)
  {
    D.Row(e.seqNo, e.seqNo, e.shipment, place(e.shipment), KindOf(e.kind, e.status))
  }

  function RowsOf(events: seq<Ships.Event>, place: Id -> Id): (rows: seq<D.Row>)
    ensures |rows| == |events|
    ensures forall k :: 0 <= k < |rows| ==> rows[k] == RowOf(events[k], place)
  {
    if events == [] then [] else RowsOf(events[..|events| - 1], place) + [RowOf(events[|events| - 1], place)]
  }

  // ---------------------------------------------------------------- the outbox sequence

  function Drawn(db: Ships.Ships, pod: Id): Option<nat> {
    if pod in db.work && !db.work[pod].Reading? then db.work[pod].seqNo else None
  }

  /** Every sequence number is drawn once: by one open transaction or by one committed event. */
  ghost predicate SeqInv(db: Ships.Ships) {
    && (forall j :: 0 <= j < |db.outbox| ==> db.outbox[j].seqNo < db.nextSeq)
    && (forall j, k :: 0 <= j < k < |db.outbox| ==> db.outbox[j].seqNo != db.outbox[k].seqNo)
    && (forall pod {:trigger Drawn(db, pod)} :: Drawn(db, pod).Some? ==>
          && Drawn(db, pod).value < db.nextSeq
          && forall j :: 0 <= j < |db.outbox| ==> db.outbox[j].seqNo != Drawn(db, pod).value)
    && (forall p, q {:trigger Drawn(db, p), Drawn(db, q)} :: Drawn(db, p).Some? && Drawn(db, p) == Drawn(db, q) ==>
          p == q)
  }

  lemma StepKeepsSeq(db: Ships.Ships, a: Ships.Action)
    requires SeqInv(db) && Ships.Enabled(db, a)
    ensures SeqInv(Ships.Step(db, a))
  {
    var after := Ships.Step(db, a);
    assert a.CommitTxn? ==> Drawn(db, a.pod).Some?;
    forall pod ensures Drawn(after, pod) == if pod == a.pod then Drawn(after, pod) else Drawn(db, pod) {
    }
    assert !a.DrawSeq? ==> Drawn(after, a.pod).None? || Drawn(after, a.pod) == Drawn(db, a.pod);
  }

  lemma {:induction false} RunKeepsSeq(db: Ships.Ships, actions: seq<Ships.Action>)
    requires SeqInv(db) && Ships.EnabledRun(db, actions)
    ensures SeqInv(Ships.Run(db, actions))
    decreases |actions|
  {
    if actions != [] {
      StepKeepsSeq(db, actions[0]);
      RunKeepsSeq(Ships.Step(db, actions[0]), actions[1..]);
    }
  }

  lemma {:induction false} StoryHas(outbox: seq<Ships.Event>, j: nat)
    requires j < |outbox| && outbox[j].kind != Ships.Updated
    ensures outbox[j] in Ships.Story(outbox, outbox[j].shipment)
    decreases |outbox|
  {
    if j < |outbox| - 1 {
      StoryHas(outbox[..|outbox| - 1], j);
    }
  }

  /** What a writer commits comes after everything in its shipment's story. */
  lemma LaterThanItsStory(db: Ships.Ships, pod: Id, j: nat)
    requires Ships.Inv(db) && Ships.Enabled(db, Ships.CommitTxn(pod)) && db.work[pod].Writing?
    requires j < |db.outbox| && db.outbox[j].shipment == db.work[pod].shipment && db.outbox[j].kind != Ships.Updated
    ensures db.outbox[j].seqNo < db.work[pod].seqNo.value
  {
    assert Ships.PodInv(db, pod);
    StoryHas(db.outbox, j);
    var story := Ships.Story(db.outbox, db.work[pod].shipment);
    var k :| 0 <= k < |story| && story[k] == db.outbox[j];
  }

  lemma CommitKeepsKeyOrder(db: Ships.Ships, pod: Id, place: Id -> Id, e: Ships.Event)
    requires Ships.Inv(db) && SeqInv(db) && Ships.Enabled(db, Ships.CommitTxn(pod))
    requires e.seqNo == db.work[pod].seqNo.value && e.shipment == db.work[pod].shipment
    requires e.kind == if db.work[pod].Writing? then db.work[pod].kind else Ships.Updated
    ensures D.KeepsKeyOrder(HANDLED, RowsOf(db.outbox, place), RowOf(e, place))
  {
    var rows, row := RowsOf(db.outbox, place), RowOf(e, place);
    assert Drawn(db, pod) == Some(e.seqNo);
    forall j | 0 <= j < |rows| ensures !D.Precedes(HANDLED, row, rows[j]) {
      if db.work[pod].Writing? && db.outbox[j].shipment == e.shipment && db.outbox[j].kind != Ships.Updated {
        LaterThanItsStory(db, pod, j);
      }
    }
  }

  lemma CommitAppends(db: Ships.Ships, pod: Id) returns (e: Ships.Event)
    requires Ships.Enabled(db, Ships.CommitTxn(pod))
    ensures Ships.Step(db, Ships.CommitTxn(pod)).outbox == db.outbox + [e]
    ensures e.seqNo == db.work[pod].seqNo.value && e.shipment == db.work[pod].shipment
    ensures e.kind == if db.work[pod].Writing? then db.work[pod].kind else Ships.Updated
  {
    e := Ships.Step(db, Ships.CommitTxn(pod)).outbox[|db.outbox|];
  }

  /** Whatever the interleaving of the pods, the event a commit adds keeps its key in sequence order: its row lock was
      taken before its number was drawn. This is what the delivery machine asks of producers. */
  lemma CommitsKeepKeyOrder(actions: seq<Ships.Action>, pod: Id, place: Id -> Id)
    requires Ships.EnabledRun(Ships.NO_SHIPMENTS, actions)
    requires Ships.Enabled(Ships.Run(Ships.NO_SHIPMENTS, actions), Ships.CommitTxn(pod))
    ensures var db := Ships.Run(Ships.NO_SHIPMENTS, actions);
            var outbox := Ships.Step(db, Ships.CommitTxn(pod)).outbox;
            && outbox[..|outbox| - 1] == db.outbox
            && D.KeepsKeyOrder(HANDLED, RowsOf(db.outbox, place), RowOf(outbox[|outbox| - 1], place))
  {
    Ships.RunKeepsInv(Ships.NO_SHIPMENTS, actions);
    RunKeepsSeq(Ships.NO_SHIPMENTS, actions);
    var db := Ships.Run(Ships.NO_SHIPMENTS, actions);
    var e := CommitAppends(db, pod);
    CommitKeepsKeyOrder(db, pod, place, e);
  }

  // ---------------------------------------------------------------- what the consumer has seen

  lemma RowsOfSnoc(events: seq<Ships.Event>, e: Ships.Event, place: Id -> Id)
    ensures RowsOf(events + [e], place) == RowsOf(events, place) + [RowOf(e, place)]
  {
  }

  lemma {:induction false} StoryRows(outbox: seq<Ships.Event>, s: Id, place: Id -> Id)
    ensures D.KeyRows(HANDLED, RowsOf(outbox, place), s) == RowsOf(Ships.Story(outbox, s), place)
  {
    if outbox != [] {
      var before, e := outbox[..|outbox| - 1], outbox[|outbox| - 1];
      StoryRows(before, s, place);
      D.KeyRowsSnoc(HANDLED, RowsOf(before, place), RowOf(e, place), s);
      RowsOfSnoc(Ships.Story(before, s), e, place);
    }
  }

  lemma {:induction false} RowsOfPrefix(events: seq<Ships.Event>, n: nat, place: Id -> Id)
    requires n <= |events|
    ensures RowsOf(events, place)[..n] == RowsOf(events[..n], place)
  {
  }

  /** A prefix of the story's rows is the rows of a prefix of the story, and tells a prefix of the path. */
  lemma {:induction false} AppliedPrefix(story: seq<Ships.Event>, path: seq<SM.Status>, applied: seq<D.Row>,
                                         place: Id -> Id)
    requires Ships.StoryRises(story) && Ships.StoryTells(story, path) && (path == [] || SM.LegalPath(path))
    requires applied <= RowsOf(story, place)
    ensures |applied| <= |story| == |path| && applied == RowsOf(story[..|applied|], place)
    ensures forall k :: 0 <= k < |applied| ==>
              story[k].status == path[k] && (story[k].kind == Ships.Created <==> k == 0)
    ensures |applied| > 0 ==> SM.LegalPath(path[..|applied|])
  {
    assert applied == RowsOf(story, place)[..|applied|];
    RowsOfPrefix(story, |applied|, place);
    if |applied| > 0 {
      SM.PrefixIsLegal(path, |applied|);
    }
  }

  /** Whatever shipment pods, relay and consumers do, what the consumer has applied for a shipment is the first part of
      that shipment's story, and the statuses in it are a legal path. */
  lemma AppliedIsALegalStory<S>(actions: seq<Ships.Action>, c: D.Consumer<S>, deliveries: seq<D.Action>, s: Id,
                                place: Id -> Id)
    requires Ships.EnabledRun(Ships.NO_SHIPMENTS, actions)
    requires c.kinds == HANDLED && D.EnabledRun(c, D.Start<S>(), deliveries)
             && D.OrderlyRun(c, D.Start<S>(), deliveries, s)
    requires D.Run(c, D.Start<S>(), deliveries).rows == RowsOf(Ships.Run(Ships.NO_SHIPMENTS, actions).outbox, place)
    ensures var db := Ships.Run(Ships.NO_SHIPMENTS, actions);
            var applied := D.KeyRows(HANDLED, D.Run(c, D.Start<S>(), deliveries).applied, s);
            var story, path, n := Ships.Story(db.outbox, s), Ships.Path(db.history, s), |applied|;
            && n <= |story| == |path|
            && applied == RowsOf(story[..n], place)
            && (forall k :: 0 <= k < n ==> story[k].status == path[k] && (story[k].kind == Ships.Created <==> k == 0))
            && (n > 0 ==> SM.LegalPath(path[..n]))
  {
    var db := Ships.Run(Ships.NO_SHIPMENTS, actions);
    D.EffectsInOrder(c, deliveries, s);
    Ships.EventsTellTheHistory(actions, s);
    StoryRows(db.outbox, s, place);
    AppliedPrefix(Ships.Story(db.outbox, s), Ships.Path(db.history, s),
                  D.KeyRows(HANDLED, D.Run(c, D.Start<S>(), deliveries).applied, s), place);
  }

  // ---------------------------------------------------------------- one system

  // Shipment pods commit changes and their events; relays, broker and consumer pods carry the events; a consumer pod
  // that handles one runs the inventory handler on the stock in the transaction that records the event as processed. A
  // refused handler rolls both back; the event stays next until it is handled, or until the pod gives up on it.
  // Meanwhile any other stock transaction may run. `confirmed` remembers the hold table a shipment's created message
  // was handled on.

  datatype System = System(ships: Ships.Ships, pipe: D.Pipe<int>, stock: T.Db, confirmed: map<Id, seq<T.Hold>>)

  const CONSUMER: D.Consumer<int> := D.Consumer(HANDLED, (n: int, row: D.Row) => n + 1, 0)

  function Beginning(): System {
    System(Ships.NO_SHIPMENTS, D.Start<int>(), T.EMPTY, map[])
  }

  datatype Action =
    | Ship(change: Ships.Action)
    | Carry(delivery: D.Action)
    | Receive(pod: Id, now: Time)
    | GiveUp(pod: Id, now: Time)
    | Stock(op: Ops.Op)

  predicate HasNext(p: D.Pipe<int>, pod: Id) {
    pod in p.cursors && p.cursors[pod].pos < |D.LogOf(p.logs, p.cursors[pod].partition)|
  }

  function NextRow(p: D.Pipe<int>, pod: Id): D.Row
    requires HasNext(p, pod)
  {
    D.LogOf(p.logs, p.cursors[pod].partition)[p.cursors[pod].pos]
  }

  /** The row has a handler and has not been processed. */
  predicate NeedsWork(p: D.Pipe<int>, row: D.Row) {
    row.kind in HANDLED && row.event !in p.processed
  }

  /** What the inventory handler makes of a row. */
  function Answer(stock: T.Db, row: D.Row, now: Time): (T.Db, Ops.Outcome)
    requires T.Constraints(stock)
  {
    LS.OnMessage(stock, row.key, MessageOf(row.kind), now)
  }

  /** A pod gives up only on what the handler refuses: outages end before its attempts do. */
  ghost predicate Enabled(sys: System, a: Action) {
    match a
    case Ship(change) => Ships.Enabled(sys.ships, change)
    case Carry(delivery) =>
      D.Enabled(CONSUMER, sys.pipe, delivery) && !delivery.Produce? && !delivery.Deliver? && !delivery.GiveUp?
    case Receive(pod, _) => HasNext(sys.pipe, pod) && T.Constraints(sys.stock)
    case GiveUp(pod, now) =>
      && HasNext(sys.pipe, pod) && NeedsWork(sys.pipe, NextRow(sys.pipe, pod)) && T.Constraints(sys.stock)
      && Answer(sys.stock, NextRow(sys.pipe, pod), now).1.Refused?
    case Stock(op) => T.Constraints(sys.stock) && Ops.Admissible(sys.stock, op)
  }

  /** What a change committed to the outbox. */
  function Committed(before: Ships.Ships, after: Ships.Ships): seq<Ships.Event> {
    if |before.outbox| <= |after.outbox| then after.outbox[|before.outbox|..] else []
  }

  function Received(sys: System, pod: Id, now: Time): System
    requires Enabled(sys, Receive(pod, now))
  {
    var row := NextRow(sys.pipe, pod);
    var moved := D.Step(CONSUMER, sys.pipe, D.Deliver(pod));
    if !NeedsWork(sys.pipe, row) then sys.(pipe := moved)
    else
      var (stock, outcome) := Answer(sys.stock, row, now);
      if outcome.Refused? then sys
      else sys.(pipe := moved, stock := stock,
                confirmed := if MessageOf(row.kind).ShipmentCreated? then sys.confirmed[row.key := sys.stock.holds]
                else sys.confirmed)
  }

  function Step(sys: System, a: Action, place: Id -> Id): System
    requires Enabled(sys, a)
  {
    match a
    case Ship(change) =>
      var ships := Ships.Step(sys.ships, change);
      sys.(ships := ships, pipe := sys.pipe.(rows := sys.pipe.rows + RowsOf(Committed(sys.ships, ships), place)))
    case Carry(delivery) => sys.(pipe := D.Step(CONSUMER, sys.pipe, delivery))
    case Receive(pod, now) => Received(sys, pod, now)
    case GiveUp(pod, _) => sys.(pipe := D.Step(CONSUMER, sys.pipe, D.GiveUp(pod)))
    case Stock(op) => sys.(stock := Ops.Apply(sys.stock, op).0)
  }

  /** What is asked for a shipment: one relay at a time works on its events, all its holds are still HELD when its
      created message is handled, and from then on only its own events commit or release it. */
  ghost predicate Promised(sys: System, a: Action, s: Id)
    requires Enabled(sys, a)
  {
    && (a.Carry? && a.delivery.RelayStart? && D.Touches(a.delivery.batch, s) ==> D.NoRelayOn(sys.pipe, s))
    && (a.Receive? && NextRow(sys.pipe, a.pod).key == s && NeedsWork(sys.pipe, NextRow(sys.pipe, a.pod))
        && MessageOf(NextRow(sys.pipe, a.pod).kind).ShipmentCreated? ==>
          !SO.Unlisted(sys.stock.holds, s) && LS.AllHeld(sys.stock.holds, s))
    && (a.Stock? && s in sys.confirmed ==> LS.Calm(sys.stock, s, a.op))
  }

  // ---------------------------------------------------------------- what every step keeps

  /** How many of the shipment's events have been handled. */
  function Handled(sys: System, s: Id): nat {
    |D.KeyRows(HANDLED, sys.pipe.applied, s)|
  }

  /** The stock stands where the handled part of the shipment's committed history says. */
  ghost predicate StockFits(sys: System, s: Id) {
    var path, n := Ships.Path(sys.ships.history, s), Handled(sys, s);
    if n == 0 then s !in sys.confirmed
    else
      && n <= |path| && s in sys.confirmed && !SO.Unlisted(sys.confirmed[s], s) && LS.AllHeld(sys.confirmed[s], s)
      && LS.Follows(sys.confirmed[s], sys.stock.holds, s, LS.StockStatus(path[..n]))
  }

  ghost predicate ShipsFit(ships: Ships.Ships) { Ships.Inv(ships) && SeqInv(ships) }

  ghost predicate SystemInv(sys: System, s: Id, place: Id -> Id) {
    && ShipsFit(sys.ships) && sys.pipe.rows == RowsOf(sys.ships.outbox, place)
    && D.OrderInv(CONSUMER, sys.pipe, s)
    && SI.Inv(sys.stock) && StockFits(sys, s)
  }

  lemma BeginningFits(s: Id, place: Id -> Id)
    ensures SystemInv(Beginning(), s, place)
  {
  }

  /** A change either commits nothing or puts one event in the outbox, in its key's order. */
  ghost predicate Produces(before: Ships.Ships, after: Ships.Ships, e: Option<Ships.Event>, place: Id -> Id) {
    match e
    case None => after.outbox == before.outbox
    case Some(e) =>
      after.outbox == before.outbox + [e] && D.KeepsKeyOrder(HANDLED, RowsOf(before.outbox, place), RowOf(e, place))
  }

  lemma ShipProduces(ships: Ships.Ships, change: Ships.Action, place: Id -> Id) returns (e: Option<Ships.Event>)
    requires ShipsFit(ships) && Ships.Enabled(ships, change)
    ensures ShipsFit(Ships.Step(ships, change)) && Produces(ships, Ships.Step(ships, change), e, place)
  {
    Ships.StepKeepsInv(ships, change);
    StepKeepsSeq(ships, change);
    e := None;
    if change.CommitTxn? {
      var committed := CommitAppends(ships, change.pod);
      CommitKeepsKeyOrder(ships, change.pod, place, committed);
      e := Some(committed);
    }
  }

  lemma PathGrows(ships: Ships.Ships, change: Ships.Action, s: Id)
    requires ShipsFit(ships) && Ships.Enabled(ships, change)
    ensures Ships.Path(ships.history, s) <= Ships.Path(Ships.Step(ships, change).history, s)
  {
    if change.CommitTxn? && ships.work[change.pod].Writing? {
      assert Ships.PodInv(ships, change.pod);
      RecordedExtends(ships.history, ships.work[change.pod].recorded, s);
    }
  }

  lemma RecordedExtends(history: seq<Ships.HistoryRow>, recorded: seq<Ships.HistoryRow>, s: Id)
    requires |recorded| <= 1
    ensures Ships.Path(history, s) <= Ships.Path(history + recorded, s)
  {
    if recorded == [] {
      Ships.NoHistory(history);
    } else {
      assert recorded == [recorded[0]];
      Ships.PathSnoc(history, recorded[0], s);
    }
  }

  /** The pipe after a change. */
  function Fed(pipe: D.Pipe<int>, before: Ships.Ships, after: Ships.Ships, place: Id -> Id): D.Pipe<int> {
    pipe.(rows := pipe.rows + RowsOf(Committed(before, after), place))
  }

  lemma FedOne(pipe: D.Pipe<int>, before: Ships.Ships, after: Ships.Ships, e: Ships.Event, s: Id, place: Id -> Id)
    requires after.outbox == before.outbox + [e]
             && D.KeepsKeyOrder(HANDLED, RowsOf(before.outbox, place), RowOf(e, place))
    requires D.OrderInv(CONSUMER, pipe, s) && pipe.rows == RowsOf(before.outbox, place)
    ensures var fed := Fed(pipe, before, after, place);
            D.OrderInv(CONSUMER, fed, s) && fed.rows == RowsOf(after.outbox, place)
  {
    var row := RowOf(e, place);
    assert Committed(before, after) == [e];
    RowsOfSnoc(before.outbox, e, place);
    assert RowsOf([e], place) == [row];
    assert Fed(pipe, before, after, place) == D.Step(CONSUMER, pipe, D.Produce(row));
    D.StepKeepsOrderInv(CONSUMER, pipe, D.Produce(row), s);
  }

  lemma FedFits(pipe: D.Pipe<int>, before: Ships.Ships, after: Ships.Ships, e: Option<Ships.Event>, s: Id,
                place: Id -> Id)
    requires Produces(before, after, e, place)
    requires D.OrderInv(CONSUMER, pipe, s) && pipe.rows == RowsOf(before.outbox, place)
    ensures var fed := Fed(pipe, before, after, place);
            D.OrderInv(CONSUMER, fed, s) && fed.rows == RowsOf(after.outbox, place)
  {
    if e.Some? {
      FedOne(pipe, before, after, e.value, s, place);
    } else {
      assert Committed(before, after) == [];
      assert Fed(pipe, before, after, place) == pipe;
    }
  }

  /** A longer history changes nothing for what was handled of it. */
  lemma StockFitsOn(sys: System, after: System, s: Id)
    requires StockFits(sys, s) && after.pipe.applied == sys.pipe.applied
    requires after.stock == sys.stock && after.confirmed == sys.confirmed
    requires Ships.Path(sys.ships.history, s) <= Ships.Path(after.ships.history, s)
    ensures StockFits(after, s)
  {
    var n := Handled(sys, s);
    var path, next := Ships.Path(sys.ships.history, s), Ships.Path(after.ships.history, s);
    assert n <= |path| ==> next[..n] == path[..n];
  }

  lemma ShipFits(sys: System, change: Ships.Action, s: Id, place: Id -> Id)
    requires SystemInv(sys, s, place) && Enabled(sys, Ship(change))
    ensures SystemInv(Step(sys, Ship(change), place), s, place)
  {
    var after := Step(sys, Ship(change), place);
    var e := ShipProduces(sys.ships, change, place);
    FedFits(sys.pipe, sys.ships, after.ships, e, s, place);
    assert after.pipe == Fed(sys.pipe, sys.ships, after.ships, place);
    PathGrows(sys.ships, change, s);
    StockFitsOn(sys, after, s);
  }

  lemma CarryFits(sys: System, delivery: D.Action, s: Id, place: Id -> Id)
    requires SystemInv(sys, s, place) && Enabled(sys, Carry(delivery)) && Promised(sys, Carry(delivery), s)
    ensures SystemInv(Step(sys, Carry(delivery), place), s, place)
  {
    D.StepKeepsOrderInv(CONSUMER, sys.pipe, delivery, s);
  }

  lemma StockStepFits(sys: System, op: Ops.Op, s: Id, place: Id -> Id)
    requires SystemInv(sys, s, place) && Enabled(sys, Stock(op)) && Promised(sys, Stock(op), s)
    ensures SystemInv(Step(sys, Stock(op), place), s, place)
  {
    SI.ApplyKeepsInv(sys.stock, op);
    if s in sys.confirmed {
      var path := Ships.Path(sys.ships.history, s)[..Handled(sys, s)];
      LS.CalmFollows(sys.confirmed[s], sys.stock, s, LS.StockStatus(path), op);
    }
  }

  // ---------------------------------------------------------------- a message of the shipment

  /** The next unprocessed row of the shipment is the next event of its story, and reads as the next step of its
      path. */
  lemma NextInPath(sys: System, pod: Id, s: Id, place: Id -> Id)
    requires SystemInv(sys, s, place) && HasNext(sys.pipe, pod)
    requires NextRow(sys.pipe, pod).key == s && NeedsWork(sys.pipe, NextRow(sys.pipe, pod))
    ensures var path, n := Ships.Path(sys.ships.history, s), Handled(sys, s);
            && n < |path| && SM.LegalPath(path)
            && MessageOf(NextRow(sys.pipe, pod).kind) ==
               if n == 0 then LS.ShipmentCreated else LS.StatusChanged(path[n])
    ensures var moved := D.Step(CONSUMER, sys.pipe, D.Deliver(pod));
            D.OrderInv(CONSUMER, moved, s) && |D.KeyRows(HANDLED, moved.applied, s)| == Handled(sys, s) + 1
  {
    NextDelivered(sys.pipe, pod, s);
    StoryRows(sys.ships.outbox, s, place);
    assert Ships.ShipmentInv(sys.ships, s);
    NextReads(Ships.Story(sys.ships.outbox, s), Ships.Path(sys.ships.history, s), Handled(sys, s),
              NextRow(sys.pipe, pod), place);
  }

  lemma NextDelivered(pipe: D.Pipe<int>, pod: Id, s: Id)
    requires D.OrderInv(CONSUMER, pipe, s) && HasNext(pipe, pod)
    requires NextRow(pipe, pod).key == s && NeedsWork(pipe, NextRow(pipe, pod))
    ensures var moved, n := D.Step(CONSUMER, pipe, D.Deliver(pod)), |D.KeyRows(HANDLED, pipe.applied, s)|;
            && D.OrderInv(CONSUMER, moved, s) && |D.KeyRows(HANDLED, moved.applied, s)| == n + 1
            && n < |D.KeyRows(HANDLED, pipe.rows, s)| && D.KeyRows(HANDLED, pipe.rows, s)[n] == NextRow(pipe, pod)
  {
    var moved := D.Step(CONSUMER, pipe, D.Deliver(pod));
    D.StepKeepsOrderInv(CONSUMER, pipe, D.Deliver(pod), s);
    D.AppliedIsPrefix(CONSUMER, moved, s);
    D.KeyRowsSnoc(HANDLED, pipe.applied, NextRow(pipe, pod), s);
    assert D.KeyRows(HANDLED, moved.applied, s)[|D.KeyRows(HANDLED, pipe.applied, s)|] == NextRow(pipe, pod);
  }

  lemma {:induction false} NextReads(story: seq<Ships.Event>, path: seq<SM.Status>, n: nat, row: D.Row, place: Id -> Id)
    requires Ships.StoryRises(story) && Ships.StoryTells(story, path)
    requires n < |story| && RowsOf(story, place)[n] == row
    ensures n < |path|
    ensures MessageOf(row.kind) == if n == 0 then LS.ShipmentCreated else LS.StatusChanged(path[n])
  {
    assert row == RowOf(story[n], place);
  }

  lemma OneMore(path: seq<SM.Status>, n: nat)
    requires SM.LegalPath(path) && n < |path|
    ensures path[..n + 1] == path[..n] + [path[n]] && SM.LegalPath(path[..n + 1])
    ensures n > 0 ==> SM.LegalPath(path[..n]) && SM.CanTransition(path[..n][n - 1], path[n])
    ensures n == 0 ==> path[..n + 1] == [SM.CREATED]
  {
  }

  /** The shipment's next message is never refused, and moves its holds on by one step of its path. */
  lemma OwnMessage(sys: System, pod: Id, now: Time, s: Id, place: Id -> Id)
    requires SystemInv(sys, s, place) && HasNext(sys.pipe, pod)
    requires NextRow(sys.pipe, pod).key == s && NeedsWork(sys.pipe, NextRow(sys.pipe, pod))
    requires Handled(sys, s) == 0 ==> !SO.Unlisted(sys.stock.holds, s) && LS.AllHeld(sys.stock.holds, s)
    ensures var path, n := Ships.Path(sys.ships.history, s), Handled(sys, s);
            var start := if n == 0 then sys.stock.holds else sys.confirmed[s];
            var (after, outcome) := Answer(sys.stock, NextRow(sys.pipe, pod), now);
            && n < |path| && SI.Inv(after) && !outcome.Refused?
            && LS.Follows(start, after.holds, s, LS.StockStatus(path[..n + 1]))
  {
    var path, n := Ships.Path(sys.ships.history, s), Handled(sys, s);
    NextInPath(sys, pod, s, place);
    OneMore(path, n);
    if n == 0 {
      LS.ConfirmStarts(sys.stock, s, now);
    } else {
      LS.EventFits(path[..n], LS.Next(path[n], now));
      LS.OnMessageFollows(sys.confirmed[s], sys.stock, s, LS.StockStatus(path[..n]), LS.StatusChanged(path[n]), now);
    }
  }

  lemma ReceivedIs(sys: System, pod: Id, now: Time)
    requires Enabled(sys, Receive(pod, now)) && NeedsWork(sys.pipe, NextRow(sys.pipe, pod))
    requires !Answer(sys.stock, NextRow(sys.pipe, pod), now).1.Refused?
    ensures var after := Received(sys, pod, now);
            && after.pipe == D.Step(CONSUMER, sys.pipe, D.Deliver(pod)) && after.pipe.rows == sys.pipe.rows
            && after.ships == sys.ships
  {
  }

  /** The two sides of a handled message, put together. */
  lemma ReceivedFits(sys: System, pod: Id, now: Time, s: Id, place: Id -> Id)
    requires SystemInv(sys, s, place) && Enabled(sys, Receive(pod, now)) && NeedsWork(sys.pipe, NextRow(sys.pipe, pod))
    requires D.OrderInv(CONSUMER, D.Step(CONSUMER, sys.pipe, D.Deliver(pod)), s)
    requires !Answer(sys.stock, NextRow(sys.pipe, pod), now).1.Refused?
    requires SI.Inv(Received(sys, pod, now).stock) && StockFits(Received(sys, pod, now), s)
    ensures SystemInv(Received(sys, pod, now), s, place)
  {
    ReceivedIs(sys, pod, now);
  }

  lemma ReceiveOwnFits(sys: System, pod: Id, now: Time, s: Id, place: Id -> Id)
    requires SystemInv(sys, s, place) && Enabled(sys, Receive(pod, now)) && Promised(sys, Receive(pod, now), s)
    requires NextRow(sys.pipe, pod).key == s && NeedsWork(sys.pipe, NextRow(sys.pipe, pod))
    ensures SystemInv(Received(sys, pod, now), s, place)
    ensures !Answer(sys.stock, NextRow(sys.pipe, pod), now).1.Refused?
  {
    NextInPath(sys, pod, s, place);
    OwnMessage(sys, pod, now, s, place);
    ReceivedFits(sys, pod, now, s, place);
  }

  lemma OwnNeverRefused(sys: System, pod: Id, now: Time, s: Id, place: Id -> Id)
    requires SystemInv(sys, s, place) && HasNext(sys.pipe, pod)
    requires NextRow(sys.pipe, pod).key == s && NeedsWork(sys.pipe, NextRow(sys.pipe, pod))
    ensures !Answer(sys.stock, NextRow(sys.pipe, pod), now).1.Refused?
  {
    NextInPath(sys, pod, s, place);
    if Handled(sys, s) > 0 {
      OwnMessage(sys, pod, now, s, place);
    }
  }

  // ---------------------------------------------------------------- a message of another shipment

  /** The transaction a handler runs, if it runs one. */
  function OpOf(row: D.Row, now: Time): Option<Ops.Op> {
    match MessageOf(row.kind)
    case ShipmentCreated => Some(Ops.DoConfirm(row.key, now))
    case StatusChanged(status) =>
      if status == SM.DISPATCHED then Some(Ops.DoCommit(row.key, now))
      else if status == SM.CANCELLED then Some(Ops.DoRelease(row.key, now))
      else None
  }

  lemma AnswerIsAnOp(stock: T.Db, row: D.Row, now: Time)
    requires T.Constraints(stock)
    ensures match OpOf(row, now)
            case Some(op) => Ops.Admissible(stock, op) && Answer(stock, row, now) == Ops.Apply(stock, op)
            case None => Answer(stock, row, now) == (stock, Ops.Moved(0))
  {
  }

  lemma OtherDelivered(pipe: D.Pipe<int>, pod: Id, s: Id)
    requires D.OrderInv(CONSUMER, pipe, s) && HasNext(pipe, pod) && NextRow(pipe, pod).key != s
    ensures var moved := D.Step(CONSUMER, pipe, D.Deliver(pod));
            D.OrderInv(CONSUMER, moved, s)
            && D.KeyRows(HANDLED, moved.applied, s) == D.KeyRows(HANDLED, pipe.applied, s)
  {
    D.StepKeepsOrderInv(CONSUMER, pipe, D.Deliver(pod), s);
    D.KeyRowsSnoc(HANDLED, pipe.applied, NextRow(pipe, pod), s);
  }

  lemma OtherHandled(start: seq<T.Hold>, stock: T.Db, row: D.Row, now: Time, s: Id, status: T.Status)
    requires SI.Inv(stock) && row.key != s && !SO.Unlisted(start, s) && LS.Follows(start, stock.holds, s, status)
    ensures LS.Follows(start, Answer(stock, row, now).0.holds, s, status)
  {
    AnswerIsAnOp(stock, row, now);
    if OpOf(row, now).Some? {
      LS.CalmFollows(start, stock, s, status, OpOf(row, now).value);
    }
  }

  lemma AnswerKeepsInv(stock: T.Db, row: D.Row, now: Time)
    requires SI.Inv(stock)
    ensures SI.Inv(Answer(stock, row, now).0)
  {
    AnswerIsAnOp(stock, row, now);
    if OpOf(row, now).Some? {
      SI.ApplyKeepsInv(stock, OpOf(row, now).value);
    }
  }

  lemma ReceiveOtherFits(sys: System, pod: Id, now: Time, s: Id, place: Id -> Id)
    requires SystemInv(sys, s, place) && Enabled(sys, Receive(pod, now))
    requires NextRow(sys.pipe, pod).key != s && NeedsWork(sys.pipe, NextRow(sys.pipe, pod))
    ensures SystemInv(Received(sys, pod, now), s, place)
  {
    var row := NextRow(sys.pipe, pod);
    if !Answer(sys.stock, row, now).1.Refused? {
      OtherDelivered(sys.pipe, pod, s);
      AnswerKeepsInv(sys.stock, row, now);
      if Handled(sys, s) > 0 {
        var path := Ships.Path(sys.ships.history, s)[..Handled(sys, s)];
        OtherHandled(sys.confirmed[s], sys.stock, row, now, s, LS.StockStatus(path));
      }
      ReceivedFits(sys, pod, now, s, place);
    }
  }

  lemma ReceiveNothingFits(sys: System, pod: Id, now: Time, s: Id, place: Id -> Id)
    requires SystemInv(sys, s, place) && Enabled(sys, Receive(pod, now)) && !NeedsWork(sys.pipe, NextRow(sys.pipe, pod))
    ensures SystemInv(Received(sys, pod, now), s, place)
  {
    D.StepKeepsOrderInv(CONSUMER, sys.pipe, D.Deliver(pod), s);
  }

  /** Nobody gives up on an event of the shipment: its handler would have to refuse. */
  lemma GiveUpFits(sys: System, pod: Id, now: Time, s: Id, place: Id -> Id)
    requires SystemInv(sys, s, place) && Enabled(sys, GiveUp(pod, now))
    requires NextRow(sys.pipe, pod).key != s
    ensures SystemInv(Step(sys, GiveUp(pod, now), place), s, place)
  {
    D.StepKeepsOrderInv(CONSUMER, sys.pipe, D.GiveUp(pod), s);
  }

  // ---------------------------------------------------------------- runs

  /** Along a run: every step is possible, and what is asked for the shipment holds. */
  ghost predicate SystemRun(sys: System, run: seq<Action>, s: Id, place: Id -> Id)
    decreases |run|
  {
    run == [] ||
    (Enabled(sys, run[0]) && Promised(sys, run[0], s) && SystemRun(Step(sys, run[0], place), run[1..], s, place))
  }

  ghost function Run(sys: System, run: seq<Action>, s: Id, place: Id -> Id): System
    requires SystemRun(sys, run, s, place)
    decreases |run|
  {
    if run == [] then sys else Run(Step(sys, run[0], place), run[1..], s, place)
  }

  /** No handler refuses an event of the shipment. */
  ghost predicate Accepted(sys: System, a: Action, s: Id)
    requires Enabled(sys, a)
  {
    (a.Receive? || a.GiveUp?) && NextRow(sys.pipe, a.pod).key == s && NeedsWork(sys.pipe, NextRow(sys.pipe, a.pod)) ==>
      a.Receive? && !Answer(sys.stock, NextRow(sys.pipe, a.pod), a.now).1.Refused?
  }

  ghost predicate AllAccepted(sys: System, run: seq<Action>, s: Id, place: Id -> Id)
    requires SystemRun(sys, run, s, place)
    decreases |run|
  {
    run == [] || (Accepted(sys, run[0], s) && AllAccepted(Step(sys, run[0], place), run[1..], s, place))
  }

  lemma StepFits(sys: System, a: Action, s: Id, place: Id -> Id)
    requires SystemInv(sys, s, place) && Enabled(sys, a) && Promised(sys, a, s)
    ensures SystemInv(Step(sys, a, place), s, place) && Accepted(sys, a, s)
  {
    match a
    case Ship(change) => ShipFits(sys, change, s, place);
    case Carry(delivery) => CarryFits(sys, delivery, s, place);
    case Receive(pod, now) =>
      if !NeedsWork(sys.pipe, NextRow(sys.pipe, pod)) {
        ReceiveNothingFits(sys, pod, now, s, place);
      } else if NextRow(sys.pipe, pod).key == s {
        ReceiveOwnFits(sys, pod, now, s, place);
      } else {
        ReceiveOtherFits(sys, pod, now, s, place);
      }
    case GiveUp(pod, now) =>
      if NextRow(sys.pipe, pod).key == s {
        OwnNeverRefused(sys, pod, now, s, place);
      } else {
        GiveUpFits(sys, pod, now, s, place);
      }
    case Stock(op) => StockStepFits(sys, op, s, place);
  }

  lemma {:induction false} RunFits(sys: System, run: seq<Action>, s: Id, place: Id -> Id)
    requires SystemInv(sys, s, place) && SystemRun(sys, run, s, place)
    ensures SystemInv(Run(sys, run, s, place), s, place) && AllAccepted(sys, run, s, place)
    decreases |run|
  {
    if run != [] {
      StepFits(sys, run[0], s, place);
      RunFits(Step(sys, run[0], place), run[1..], s, place);
    }
  }

  /** The shipment's handled events are the first part of its committed story; its holds stand together where that part
      says, and the stock dispatched for it is all it held when its created message was handled, or nothing. */
  ghost predicate Stands(sys: System, s: Id, place: Id -> Id) {
    var handled := D.KeyRows(HANDLED, sys.pipe.applied, s);
    var story, path, n := Ships.Story(sys.ships.outbox, s), Ships.Path(sys.ships.history, s), |handled|;
    && n <= |story| == |path| && handled == RowsOf(story[..n], place)
    && (n > 0 ==>
          && SM.LegalPath(path[..n]) && s in sys.confirmed
          && LS.Follows(sys.confirmed[s], sys.stock.holds, s, LS.StockStatus(path[..n]))
          && forall i :: DispatchedIs(sys, i, s, SM.DISPATCHED in path[..n]))
  }

  ghost predicate DispatchedIs(sys: System, i: Id, s: Id, dispatched: bool)
    requires s in sys.confirmed
  {
    T.Balance(sys.stock.ledger, T.DispatchedFor(i, s)) ==
    if dispatched then -T.Total(sys.confirmed[s], T.ForShipmentIn(i, s, T.Held)) else 0
  }

  lemma HandledIsStory(sys: System, s: Id, place: Id -> Id)
    requires SystemInv(sys, s, place)
    ensures var handled := D.KeyRows(HANDLED, sys.pipe.applied, s);
            var story, path, n := Ships.Story(sys.ships.outbox, s), Ships.Path(sys.ships.history, s), |handled|;
            && n <= |story| == |path| && handled == RowsOf(story[..n], place)
            && (n > 0 ==> SM.LegalPath(path[..n]))
  {
    D.AppliedIsPrefix(CONSUMER, sys.pipe, s);
    StoryRows(sys.ships.outbox, s, place);
    assert Ships.ShipmentInv(sys.ships, s);
    AppliedPrefix(Ships.Story(sys.ships.outbox, s), Ships.Path(sys.ships.history, s),
                  D.KeyRows(HANDLED, sys.pipe.applied, s), place);
  }

  lemma DispatchedWhatWasHeld(sys: System, s: Id, i: Id, path: seq<SM.Status>)
    requires SI.Inv(sys.stock) && s in sys.confirmed && LS.AllHeld(sys.confirmed[s], s) && SM.LegalPath(path)
    requires LS.Follows(sys.confirmed[s], sys.stock.holds, s, LS.StockStatus(path))
    ensures DispatchedIs(sys, i, s, SM.DISPATCHED in path)
  {
    LS.FollowingTotal(sys.confirmed[s], sys.stock.holds, s, LS.StockStatus(path), i);
    assert SI.DispatchBookedFor(sys.stock, i, s);
  }

  lemma InvStands(sys: System, s: Id, place: Id -> Id)
    requires SystemInv(sys, s, place)
    ensures Stands(sys, s, place)
  {
    HandledIsStory(sys, s, place);
    var path, n := Ships.Path(sys.ships.history, s), Handled(sys, s);
    if n > 0 {
      forall i ensures DispatchedIs(sys, i, s, SM.DISPATCHED in path[..n]) {
        DispatchedWhatWasHeld(sys, s, i, path[..n]);
      }
    }
  }

  /** The whole way, from empty tables through every run of the system: shipment pods commit in any interleaving, events
      travel with crashes, ambiguous sends and rewinds, and the handlers run on a stock that everybody else uses as
      well. If one relay at a time works on a shipment's events and all its holds are HELD when its created message is
      handled, then no handler ever refuses an event of it, so none is given up on, and its stock stands where its
      handled history says. */
  lemma LifecycleReachesStock(run: seq<Action>, s: Id, place: Id -> Id)
    requires SystemRun(Beginning(), run, s, place)
    ensures AllAccepted(Beginning(), run, s, place) && Stands(Run(Beginning(), run, s, place), s, place)
  {
    BeginningFits(s, place);
    RunFits(Beginning(), run, s, place);
    InvStands(Run(Beginning(), run, s, place), s, place);
  }
}
