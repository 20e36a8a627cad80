/** ShipmentService as code: creating a shipment around its stock hold, and changing its status under the version
    check. */
module ShipmentService {
  import opened Common
  import SM = StateMachine
  import SR = ShipmentRuns
  import T = StockTables
  import Ops = StockOps
  import SI = StockInvariant
  import opened ShipmentCreation
  import ReservationService

  datatype Answer =
    | NotOperational | StaleVersion | AlreadyThere | IllegalTransition | Done
    | OutOfStock(why: Ops.Refusal) | NoReply | NotRecorded

  /** What becomes of a status change that read `seen`, when the table holds `rows` at its flush. */
  function Decide(rows: map<Id, SR.Row>, s: Id, seen: SR.Row, target: SM.Status, expected: Option<int>): Answer {
    if expected.Some? && expected.value != seen.version then StaleVersion
    else match SM.AssertTransition(seen.status, target)
      case AlreadyThere => AlreadyThere
      case Illegal => IllegalTransition
      case Allowed => if s in rows && rows[s].version == seen.version then Done else StaleVersion
  }

  class Service {
    var rows: map<Id, SR.Row>
    var history: seq<SR.HistoryRow>
    var outbox: seq<SR.Event>
    var nextSeq: nat
    var heldFor: Option<Id>
    const inventory: ReservationService.Service

    constructor (inventory: ReservationService.Service)
      ensures this.inventory == inventory && rows == map[] && history == [] && outbox == [] && nextSeq == 0
              && heldFor == None
    {
      this.inventory := inventory;
      rows, history, outbox, nextSeq, heldFor := map[], [], [], 0, None;
    }

    method Emit(s: Id, kind: SR.EventKind, row: SR.Row)
      modifies this`outbox, this`nextSeq
      ensures outbox == old(outbox) + [SR.Event(old(nextSeq), s, kind, row.status, row.version)]
              && nextSeq == old(nextSeq) + 1
    {
      outbox := outbox + [SR.Event(nextSeq, s, kind, row.status, row.version)];
      nextSeq := nextSeq + 1;
    }

    /** The columns a status change sets, and the version the flush adds. */
    method Moved(stored: SR.Row, seen: SR.Row, target: SM.Status, now: Time) returns (row: SR.Row)
      ensures row == SR.Written(stored, seen, target, now)
    {
      row := stored.(status := target);
      if target == SM.DISPATCHED {
        row := row.(dispatchedAt := Some(now));
      } else if target == SM.PICKED_UP {
        row := row.(pickedUpAt := Some(now));
      } else if target == SM.DELIVERED {
        row := row.(deliveredAt := Some(now));
      } else if target == SM.CANCELLED {
        row := row.(cancelledAt := Some(now));
      } else if target == SM.DELIVERY_FAILED {
        row := row.(attempts := seen.attempts + 1);
      }
      row := row.(version := seen.version + 1);
    }

    /** change_status on a shipment that was read as `seen`. */
    method ChangeStatus(s: Id, seen: SR.Row, target: SM.Status, expected: Option<int>, now: Time)
      returns (answer: Answer)
      modifies this`rows, this`history, this`outbox, this`nextSeq
      ensures answer == Decide(old(rows), s, seen, target, expected)
      ensures answer.Done? ==>
                && s in old(rows) && rows == old(rows)[s := SR.Written(old(rows)[s], seen, target, now)]
                && history == old(history) + [SR.HistoryRow(s, target, now)]
                && outbox == old(outbox) + [SR.Event(old(nextSeq), s, SR.StatusChanged, target, seen.version + 1)]
                && nextSeq == old(nextSeq) + 1
      ensures !answer.Done? ==>
                rows == old(rows) && history == old(history) && outbox == old(outbox) && nextSeq == old(nextSeq)
    {
      if expected.Some? && expected.value != seen.version {
        return StaleVersion;
      }
      var verdict := SM.AssertTransition(seen.status, target);
      if verdict == SM.Verdict.AlreadyThere {
        return AlreadyThere;
      }
      if verdict == SM.Verdict.Illegal {
        return IllegalTransition;
      }
      if s !in rows || rows[s].version != seen.version {
        return StaleVersion;
      }
      var row := Moved(rows[s], seen, target, now);
      rows := rows[s := row];
      history := history + [SR.HistoryRow(s, target, now)];
      Emit(s, SR.StatusChanged, row);
      return Done;
    }

    /** create, up to but not including the commit. */
    method Create(req: Ops.Request, a: Attempt) returns (answer: Answer)
      requires T.Constraints(inventory.Tables()) && Ops.ValidRequest(req)
      modifies this, inventory
      ensures inventory.Tables() == AfterAsking(old(inventory.Tables()), req, inventory.unconfirmedHold, a)
      ensures var took := TakesHold(old(inventory.Tables()), req, inventory.unconfirmedHold, a);
              && heldFor == (if took then Some(req.shipment) else old(heldFor))
              && (answer.Done? <==> took && a.inserted && req.shipment !in old(rows))
              && (answer.NotRecorded? <==> took && !answer.Done?)
      ensures answer.NotOperational? <==> !a.operational
      ensures answer.NoReply? <==> a.operational && !a.reply.Answered?
      ensures answer.OutOfStock? ==>
                Ops.Reserve(old(inventory.Tables()), req, a.cat, inventory.unconfirmedHold, a.now).1 ==
                  Ops.Refused(answer.why)
      ensures nextSeq == old(nextSeq) + if answer.Done? then 1 else 0
      ensures if answer.Done? then
                && rows == old(rows)[req.shipment := SR.NEW_ROW]
                && history == old(history) + [SR.HistoryRow(req.shipment, SM.CREATED, a.now)]
                && outbox == old(outbox) + [SR.Event(old(nextSeq), req.shipment, SR.Created, SM.CREATED, 1)]
              else rows == old(rows) && history == old(history) && outbox == old(outbox)
    {
      if !a.operational {
        return NotOperational;
      }
      if a.reply.NotSent? {
        return NoReply;
      }
      var outcome := inventory.Reserve(req, a.cat, a.now);
      if a.reply.Lost? {
        return NoReply;
      }
      if outcome.Refused? {
        return OutOfStock(outcome.why);
      }
      heldFor := Some(req.shipment);
      if !a.inserted || req.shipment in rows {
        return NotRecorded;
      }
      rows := rows[req.shipment := SR.NEW_ROW];
      history := history + [SR.HistoryRow(req.shipment, SM.CREATED, a.now)];
      Emit(req.shipment, SR.Created, SR.NEW_ROW);
      return Done;
    }

    /** The create endpoint: whatever keeps the shipment from being committed, the hold it took is given back. */
    method CreateShipment(req: Ops.Request, a: Attempt) returns (answer: Answer)
      requires SI.Inv(inventory.Tables()) && Ops.ValidRequest(req) && heldFor == None
      modifies this, inventory
      ensures answer.Done? <==> Records(old(rows).Keys, old(inventory.Tables()), req, inventory.unconfirmedHold, a)
      ensures inventory.Tables() ==
                AfterCreate(old(rows).Keys, old(inventory.Tables()), req, inventory.unconfirmedHold, a)
      ensures heldFor == None
      ensures nextSeq == old(nextSeq) +
                         if && TakesHold(old(inventory.Tables()), req, inventory.unconfirmedHold, a)
                            && a.inserted && req.shipment !in old(rows)
                         then 1 else 0
      ensures if answer.Done? then
                && rows == old(rows)[req.shipment := SR.NEW_ROW]
                && history == old(history) + [SR.HistoryRow(req.shipment, SM.CREATED, a.now)]
                && outbox == old(outbox) + [SR.Event(old(nextSeq), req.shipment, SR.Created, SM.CREATED, 1)]
              else rows == old(rows) && history == old(history) && outbox == old(outbox)
    {
      AskingKeepsInv(inventory.Tables(), req, inventory.unconfirmedHold, a);
      var before := (rows, history, outbox);
      answer := Create(req, a);
      if answer.Done? && !a.committed {
        rows, history, outbox := before.0, before.1, before.2;
        answer := NotRecorded;
      }
      if answer.Done? {
        CreationCommitted();
      } else {
        Compensate(a.later, a.reachable);
      }
    }

    /** compensate: releases the hold of a create that did not commit, once, and only if inventory can be reached. */
    method Compensate(now: Time, reachable: bool)
      requires T.Constraints(inventory.Tables())
      modifies this`heldFor, inventory
      ensures heldFor == None
      ensures inventory.Tables() == if old(heldFor).Some? && reachable
                                    then Ops.Release(old(inventory.Tables()), old(heldFor).value, now).0
                                    else old(inventory.Tables())
    {
      if heldFor.None? {
        return;
      }
      var shipment := heldFor.value;
      heldFor := None;
      if reachable {
        var released := inventory.Release(shipment, now);
      }
    }

    method CreationCommitted()
      modifies this`heldFor
      ensures heldFor == None
    {
      heldFor := None;
    }
  }

  // ---------------------------------------------------------------- the code refines the machine

  lemma FourSteps(db: SR.Ships, a: SR.Action, b: SR.Action, c: SR.Action, d: SR.Action)
    requires SR.Enabled(db, a) && SR.Enabled(SR.Step(db, a), b) && SR.Enabled(SR.Step(SR.Step(db, a), b), c)
    requires SR.Enabled(SR.Step(SR.Step(SR.Step(db, a), b), c), d)
    ensures SR.EnabledRun(db, [a, b, c, d])
    ensures SR.Run(db, [a, b, c, d]) == SR.Step(SR.Step(SR.Step(SR.Step(db, a), b), c), d)
  {
    ThreeSteps(SR.Step(db, a), b, c, d);
    assert [a, b, c, d][1..] == [b, c, d];
  }

  /** What a status change is answered, case by case. */
  lemma ChangeDecides(rows: map<Id, SR.Row>, s: Id, seen: SR.Row, target: SM.Status, expected: Option<int>)
    ensures var answer := Decide(rows, s, seen, target, expected);
            var asExpected := expected.None? || expected.value == seen.version;
            var current := s in rows && rows[s].version == seen.version;
            && (answer.Done? <==> asExpected && SM.CanTransition(seen.status, target) && current)
            && (answer.AlreadyThere? <==> asExpected && seen.status == target)
            && (answer.IllegalTransition? <==>
                asExpected && seen.status != target && !SM.CanTransition(seen.status, target))
            && (answer.StaleVersion? <==>
                !asExpected || (SM.CanTransition(seen.status, target) && !current))
  {
  }

  /** The service accepts a change exactly when the machine lets the pod that has read the row, and finds it unlocked,
      go on to write it. */
  lemma DecideIsEnabled(db: SR.Ships, pod: Id, target: SM.Status, expected: Option<int>, now: Time)
    requires SR.IsReading(db, pod) && db.work[pod].shipment !in db.locks
    ensures var w := db.work[pod];
            Decide(db.rows, w.shipment, w.seen, target, expected).Done? <==>
            SR.Enabled(db, SR.ChangeStatus(pod, target, expected, now))
  {
  }

  /** Recording a shipment takes three steps of the machine, and they leave what the code leaves. */
  lemma CreateIsARun(db: SR.Ships, pod: Id, s: Id, now: Time)
    requires pod !in db.work && s !in db.rows && s !in db.locks
    ensures var run := [SR.Insert(pod, s, now), SR.DrawSeq(pod), SR.CommitTxn(pod)];
            && SR.EnabledRun(db, run)
            && SR.Run(db, run) ==
               db.(rows := db.rows[s := SR.NEW_ROW], history := db.history + [SR.HistoryRow(s, SM.CREATED, now)],
                   outbox := db.outbox + [SR.Event(db.nextSeq, s, SR.Created, SM.CREATED, 1)],
                   nextSeq := db.nextSeq + 1)
  {
    var inserted := SR.Step(db, SR.Insert(pod, s, now));
    var drawn := SR.Step(inserted, SR.DrawSeq(pod));
    assert drawn.work[pod] ==
           SR.Writing(s, SR.NEW_ROW, SR.Created, [SR.HistoryRow(s, SM.CREATED, now)], Some(db.nextSeq));
    assert drawn.work - {pod} == db.work && drawn.locks - {s} == db.locks;
    ThreeSteps(db, SR.Insert(pod, s, now), SR.DrawSeq(pod), SR.CommitTxn(pod));
  }

  lemma ThreeSteps(db: SR.Ships, a: SR.Action, b: SR.Action, c: SR.Action)
    requires SR.Enabled(db, a) && SR.Enabled(SR.Step(db, a), b) && SR.Enabled(SR.Step(SR.Step(db, a), b), c)
    ensures SR.EnabledRun(db, [a, b, c]) && SR.Run(db, [a, b, c]) == SR.Step(SR.Step(SR.Step(db, a), b), c)
  {
    var s1 := SR.Step(db, a);
    var s2 := SR.Step(s1, b);
    var s3 := SR.Step(s2, c);
    assert SR.EnabledRun(s3, []) && SR.Run(s3, []) == s3;
    assert [c][1..] == [] && SR.EnabledRun(s2, [c]) && SR.Run(s2, [c]) == s3;
    assert [b, c][1..] == [c] && SR.EnabledRun(s1, [b, c]) && SR.Run(s1, [b, c]) == s3;
    assert [a, b, c][1..] == [b, c];
  }

  /** A pod that reads, decides, flushes and commits with nobody in between takes four steps of the machine, and they
      leave what the code leaves. */
  lemma ChangeStatusIsARun(db: SR.Ships, pod: Id, s: Id, target: SM.Status, expected: Option<int>, now: Time)
    requires pod !in db.work && s in db.rows && s !in db.locks
    requires Decide(db.rows, s, db.rows[s], target, expected).Done?
    ensures var run := [SR.Look(pod, s), SR.ChangeStatus(pod, target, expected, now), SR.DrawSeq(pod),
                        SR.CommitTxn(pod)];
            && SR.EnabledRun(db, run)
            && SR.Run(db, run) ==
               db.(rows := db.rows[s := SR.Written(db.rows[s], db.rows[s], target, now)],
                   history := db.history + [SR.HistoryRow(s, target, now)],
                   outbox := db.outbox + [SR.Event(db.nextSeq, s, SR.StatusChanged, target, db.rows[s].version + 1)],
                   nextSeq := db.nextSeq + 1)
  {
    var row := SR.Written(db.rows[s], db.rows[s], target, now);
    var looked := db.(work := db.work[pod := SR.Reading(s, db.rows[s])]);
    assert SR.Step(db, SR.Look(pod, s)) == looked;
    var changed := SR.Step(looked, SR.ChangeStatus(pod, target, expected, now));
    assert changed ==
             looked.(work := looked.work[pod := SR.Writing(s, row, SR.StatusChanged, [SR.HistoryRow(s, target, now)],
                                                           None)],
                     locks := db.locks[s := pod]);
    var drawn := SR.Step(changed, SR.DrawSeq(pod));
    assert drawn.work[pod] == SR.Writing(s, row, SR.StatusChanged, [SR.HistoryRow(s, target, now)], Some(db.nextSeq));
    assert drawn.work - {pod} == db.work && drawn.locks - {s} == db.locks;
    FourSteps(db, SR.Look(pod, s), SR.ChangeStatus(pod, target, expected, now), SR.DrawSeq(pod), SR.CommitTxn(pod));
  }
}
