/** Shipment status changes by any number of pods: read, decide, update under the version check, stage the event,
    commit.

    A pod that updates a row holds its lock until it commits or rolls back, and draws its event's sequence number in
    between. Reads take no lock, so what a pod decides on may be stale by then; the version check finds out. */
module ShipmentRuns {
  import opened Common
  import opened StateMachine

  datatype Row = Row(status: Status, version: int, attempts: int, dispatchedAt: Option<Time>, pickedUpAt: Option<Time>,
                     deliveredAt: Option<Time>, cancelledAt: Option<Time>)

  /** `at` is the clock reading of the change that wrote the row. */
  datatype HistoryRow = HistoryRow(shipment: Id, to: Status, at: Time)

  datatype EventKind = Created | StatusChanged | Updated

  datatype Event = Event(seqNo: nat, shipment: Id, kind: EventKind, status: Status, version: int)

  /** What a pod's open transaction has done so far. Writing means its UPDATE or INSERT holds the shipment's row
      lock. */
  datatype Work =
    | Reading(shipment: Id, seen: Row)
    | Writing(shipment: Id, row: Row, kind: EventKind, recorded: seq<HistoryRow>, seqNo: Option<nat>)
    | EditingNothing(shipment: Id, seen: Row, seqNo: Option<nat>)

  /** Committed tables, row locks, open transactions, and the outbox sequence. `outbox` is in commit order. */
  datatype Ships = Ships(rows: map<Id, Row>, history: seq<HistoryRow>, outbox: seq<Event>,
                         locks: map<Id, Id>, work: map<Id, Work>, nextSeq: nat)

  const NO_SHIPMENTS := Ships(map[], [], [], map[], map[], 0)

  const NEW_ROW := Row(CREATED, 1, 0, None, None, None, None)

  /** The columns change_status sets, from the values it read; the flush adds the new version. */
  function Written(current: Row, seen: Row, target: Status, now: Time): Row {
    var r := current.(status := target, version := seen.version + 1);
    match target
    case DISPATCHED => r.(dispatchedAt := Some(now))
    case PICKED_UP => r.(pickedUpAt := Some(now))
    case DELIVERED => r.(deliveredAt := Some(now))
    case CANCELLED => r.(cancelledAt := Some(now))
    case DELIVERY_FAILED => r.(attempts := seen.attempts + 1)
    case _ => r
  }

  datatype Action =
    | Insert(pod: Id, shipment: Id, now: Time)
    | Look(pod: Id, shipment: Id)
    | ChangeStatus(pod: Id, target: Status, expected: Option<int>, now: Time)
    | Edit(pod: Id)
    | EditNothing(pod: Id)
    | DrawSeq(pod: Id)
    | CommitTxn(pod: Id)
    | AbortTxn(pod: Id)

  predicate IsReading(db: Ships, pod: Id) { pod in db.work && db.work[pod].Reading? }

  /** The UPDATE found its row unlocked and at the version that was read. */
  predicate UpdateHits(db: Ships, pod: Id)
    requires IsReading(db, pod)
  {
    var w := db.work[pod];
    w.shipment !in db.locks && w.shipment in db.rows && db.rows[w.shipment].version == w.seen.version
  }

  predicate Enabled(db: Ships, a: Action) {
    match a
    case Insert(pod, s, _) => pod !in db.work && s !in db.rows && s !in db.locks
    case Look(pod, s) => pod !in db.work && s in db.rows
    case ChangeStatus(pod, target, expected, _) =>
      && IsReading(db, pod)
      && (expected.Some? ==> expected.value == db.work[pod].seen.version)
      && AssertTransition(db.work[pod].seen.status, target).Allowed?
      && UpdateHits(db, pod)
    case Edit(pod) => IsReading(db, pod) && db.work[pod].seen.status in EDITABLE_STATES && UpdateHits(db, pod)
    case EditNothing(pod) => IsReading(db, pod) && db.work[pod].seen.status in EDITABLE_STATES
    case DrawSeq(pod) => pod in db.work && !db.work[pod].Reading? && db.work[pod].seqNo.None?
    case CommitTxn(pod) => pod in db.work && !db.work[pod].Reading? && db.work[pod].seqNo.Some?
    case AbortTxn(pod) => pod in db.work
  }

  function Take(db: Ships, pod: Id, w: Work): Ships {
    db.(work := db.work[pod := w], locks := db.locks[w.shipment := pod])
  }

  function Drop(db: Ships, pod: Id): Ships
    requires pod in db.work
  {
    var w := db.work[pod];
    db.(work := db.work - {pod}, locks := if w.Writing? then db.locks - {w.shipment} else db.locks)
  }

  function Step(db: Ships, a: Action): Ships
    requires Enabled(db, a)
  {
    match a
    case Insert(pod, s, now) => Take(db, pod, Writing(s, NEW_ROW, Created, [HistoryRow(s, CREATED, now)], None))
    case Look(pod, s) => db.(work := db.work[pod := Reading(s, db.rows[s])])
    case ChangeStatus(pod, target, _, now) =>
      var w := db.work[pod];
      Take(db, pod, Writing(w.shipment, Written(db.rows[w.shipment], w.seen, target, now), StatusChanged,
                            [HistoryRow(w.shipment, target, now)], None))
    case Edit(pod) =>
      var w := db.work[pod];
      Take(db, pod, Writing(w.shipment, db.rows[w.shipment].(version := w.seen.version + 1), Updated, [], None))
    case EditNothing(pod) =>
      db.(work := db.work[pod := EditingNothing(db.work[pod].shipment, db.work[pod].seen, None)])
    case DrawSeq(pod) =>
      db.(work := db.work[pod := db.work[pod].(seqNo := Some(db.nextSeq))], nextSeq := db.nextSeq + 1)
    case CommitTxn(pod) =>
      var w := db.work[pod];
      var dropped := Drop(db, pod);
      if w.Writing? then
        dropped.(rows := db.rows[w.shipment := w.row],
                 history := db.history + w.recorded,
                 outbox := db.outbox + [Event(w.seqNo.value, w.shipment, w.kind, w.row.status, w.row.version)])
      else
        dropped.(outbox := db.outbox + [Event(w.seqNo.value, w.shipment, Updated, w.seen.status, w.seen.version)])
    case AbortTxn(pod) => Drop(db, pod)
  }

  // ---------------------------------------------------------------- one shipment's story

  /** A shipment's committed history, in commit order. */
  function Path(history: seq<HistoryRow>, s: Id): seq<Status> {
    if history == [] then []
    else
      var n := |history| - 1;
      Path(history[..n], s) + (if history[n].shipment == s then [history[n].to] else [])
  }

  /** A shipment's created and status_changed events, in commit order. */
  function Story(outbox: seq<Event>, s: Id): seq<Event> {
    if outbox == [] then []
    else
      var n := |outbox| - 1;
      Story(outbox[..n], s) + (if outbox[n].shipment == s && outbox[n].kind != Updated then [outbox[n]] else [])
  }

  function CountOf(path: seq<Status>, s: Status): nat {
    if path == [] then 0 else CountOf(path[..|path| - 1], s) + (if path[|path| - 1] == s then 1 else 0)
  }

  /** A row's columns are what its history says. */
  ghost predicate RowTells(row: Row, path: seq<Status>) {
    && LegalPath(path) && row.status == path[|path| - 1]
    && row.attempts == CountOf(path, DELIVERY_FAILED)
    && (row.dispatchedAt.Some? <==> DISPATCHED in path)
    && (row.pickedUpAt.Some? <==> PICKED_UP in path)
    && (row.deliveredAt.Some? <==> DELIVERED in path)
    && (row.cancelledAt.Some? <==> CANCELLED in path)
  }

  predicate Enters(h: HistoryRow, s: Id, status: Status) { h.shipment == s && h.to == status }

  /** created first, then status changes; sequence numbers and versions strictly rise. */
  ghost predicate StoryRises(story: seq<Event>) {
    && (forall k :: 0 <= k < |story| ==> (story[k].kind == Created <==> k == 0) && story[k].kind != Updated)
    && (forall j, k :: 0 <= j < k < |story| ==> story[j].seqNo < story[k].seqNo && story[j].version < story[k].version)
  }

  ghost predicate StoryTells(story: seq<Event>, path: seq<Status>) {
    |story| == |path| && forall k :: 0 <= k < |story| ==> story[k].status == path[k]
  }

  ghost predicate ShipmentInv(db: Ships, s: Id) {
    var path, story := Path(db.history, s), Story(db.outbox, s);
    && StoryRises(story) && StoryTells(story, path)
    && (forall k :: 0 <= k < |story| ==> story[k].seqNo < db.nextSeq)
    && (if s in db.rows
        then RowTells(db.rows[s], path) && story[|story| - 1].version <= db.rows[s].version
        else path == [])
  }

  /** What a transaction read is either current or carries an older version. */
  ghost predicate Fresh(db: Ships, s: Id, seen: Row) {
    s in db.rows && seen.version <= db.rows[s].version && (seen.version == db.rows[s].version ==> seen == db.rows[s])
  }

  ghost predicate WritesNext(db: Ships, s: Id, row: Row, kind: EventKind, recorded: seq<HistoryRow>) {
    match kind
    case Created => s !in db.rows && row == NEW_ROW && |recorded| == 1 && Enters(recorded[0], s, CREATED)
    case StatusChanged =>
      && s in db.rows && row.version == db.rows[s].version + 1
      && CanTransition(db.rows[s].status, row.status)
      && RowTells(row, Path(db.history, s) + [row.status])
      && |recorded| == 1 && Enters(recorded[0], s, row.status)
    case Updated =>
      && s in db.rows && row == db.rows[s].(version := db.rows[s].version + 1) && recorded == []
      && row.status in EDITABLE_STATES
  }

  ghost predicate PodInv(db: Ships, pod: Id)
    requires pod in db.work
  {
    var w := db.work[pod];
    match w
    case Reading(s, seen) => Fresh(db, s, seen)
    case EditingNothing(s, seen, _) => Fresh(db, s, seen)
    case Writing(s, row, kind, recorded, seqNo) =>
      && s in db.locks && db.locks[s] == pod
      && WritesNext(db, s, row, kind, recorded)
      && (seqNo.Some? ==>
            && seqNo.value < db.nextSeq
            && var story := Story(db.outbox, s);
               forall k :: 0 <= k < |story| ==> story[k].seqNo < seqNo.value)
  }

  ghost predicate LocksInv(db: Ships) {
    forall s :: s in db.locks ==>
      db.locks[s] in db.work && db.work[db.locks[s]].Writing? && db.work[db.locks[s]].shipment == s
  }

  ghost predicate Inv(db: Ships) {
    && (forall s {:trigger ShipmentInv(db, s)} :: ShipmentInv(db, s))
    && (forall pod {:trigger PodInv(db, pod)} :: pod in db.work ==> PodInv(db, pod))
    && LocksInv(db)
  }

  // ---------------------------------------------------------------- preservation

  /** Committing a new history row extends one shipment's path and no other's. */
  lemma PathSnoc(history: seq<HistoryRow>, h: HistoryRow, s: Id)
    ensures Path(history + [h], s) == if h.shipment == s then Path(history, s) + [h.to] else Path(history, s)
  {
    assert (history + [h])[..|history|] == history;
  }

  lemma StorySnoc(outbox: seq<Event>, e: Event, s: Id)
    ensures Story(outbox + [e], s) ==
            if e.shipment == s && e.kind != Updated then Story(outbox, s) + [e] else Story(outbox, s)
  {
    assert (outbox + [e])[..|outbox|] == outbox;
  }

  /** An accepted change writes the row its extended history describes. */
  lemma ChangeTells(row: Row, path: seq<Status>, target: Status, now: Time)
    requires RowTells(row, path) && CanTransition(row.status, target)
    ensures RowTells(Written(row, row, target, now), path + [target])
  {
    var next := path + [target];
    assert next[..|path|] == path;
    assert forall s :: s in next <==> s in path || s == target;
  }

  lemma {:induction false} NewShipmentTells()
    ensures RowTells(NEW_ROW, [CREATED])
  {
    assert [CREATED][..0] == [];
  }

  /** Steps that commit nothing leave every shipment's story alone. */
  lemma QuietStep(db: Ships, after: Ships, s: Id)
    requires Inv(db) && after.rows == db.rows && after.history == db.history && after.outbox == db.outbox
             && after.nextSeq >= db.nextSeq
    ensures ShipmentInv(after, s)
  {
    assert ShipmentInv(db, s);
  }

  lemma StoryExtends(story: seq<Event>, path: seq<Status>, e: Event)
    requires StoryRises(story) && StoryTells(story, path) && e.kind != Updated && (e.kind == Created <==> story == [])
    requires forall k :: 0 <= k < |story| ==> story[k].seqNo < e.seqNo && story[k].version < e.version
    ensures StoryRises(story + [e]) && StoryTells(story + [e], path + [e.status])
  {
  }

  /** What a pod's open transaction will add to the history is about its own shipment. */
  predicate Records(w: Work) {
    w.Writing? && |w.recorded| == 1 && Enters(w.recorded[0], w.shipment, w.row.status)
  }

  /** What a commit does to the shipment it writes. */
  lemma CommitMovesOwn(db: Ships, pod: Id)
    requires Enabled(db, CommitTxn(pod)) && Records(db.work[pod]) && db.work[pod].kind != Updated
    ensures var w := db.work[pod];
            var after := Step(db, CommitTxn(pod));
            && w.shipment in after.rows && after.rows[w.shipment] == w.row && after.nextSeq == db.nextSeq
            && Path(after.history, w.shipment) == Path(db.history, w.shipment) + [w.row.status]
            && Story(after.outbox, w.shipment) ==
               Story(db.outbox, w.shipment) + [Event(w.seqNo.value, w.shipment, w.kind, w.row.status, w.row.version)]
  {
    var w := db.work[pod];
    StorySnoc(db.outbox, Event(w.seqNo.value, w.shipment, w.kind, w.row.status, w.row.version), w.shipment);
    assert w.recorded == [w.recorded[0]];
    PathSnoc(db.history, w.recorded[0], w.shipment);
  }

  lemma NoHistory(history: seq<HistoryRow>)
    ensures history + [] == history
  {
  }

  /** What a commit leaves alone. */
  lemma CommitLeavesOthers(db: Ships, pod: Id, s: Id)
    requires Enabled(db, CommitTxn(pod)) && PodInv(db, pod) && (db.work[pod].Writing? ==> db.work[pod].shipment != s)
    ensures var after := Step(db, CommitTxn(pod));
            && (s in after.rows <==> s in db.rows) && (s in db.rows ==> after.rows[s] == db.rows[s])
            && (s in after.locks <==> s in db.locks) && (s in db.locks ==> after.locks[s] == db.locks[s])
            && Path(after.history, s) == Path(db.history, s) && Story(after.outbox, s) == Story(db.outbox, s)
            && after.nextSeq == db.nextSeq
  {
    var after := Step(db, CommitTxn(pod));
    var w := db.work[pod];
    StorySnoc(db.outbox, after.outbox[|db.outbox|], s);
    if w.Writing? {
      OthersPath(db.history, w.recorded, w.shipment, s);
    }
  }

  lemma OthersPath(history: seq<HistoryRow>, recorded: seq<HistoryRow>, own: Id, s: Id)
    requires |recorded| <= 1 && (recorded != [] ==> recorded[0].shipment == own) && own != s
    ensures Path(history + recorded, s) == Path(history, s)
  {
    if recorded == [] {
      NoHistory(history);
    } else {
      assert recorded == [recorded[0]];
      PathSnoc(history, recorded[0], s);
    }
  }

  /** A committed INSERT starts the shipment's story. */
  lemma CommitStartsStory(db: Ships, pod: Id)
    requires Enabled(db, CommitTxn(pod)) && db.work[pod].Writing? && db.work[pod].kind == Created
    requires ShipmentInv(db, db.work[pod].shipment) && PodInv(db, pod)
    ensures ShipmentInv(Step(db, CommitTxn(pod)), db.work[pod].shipment)
  {
    var w := db.work[pod];
    CommitMovesOwn(db, pod);
    NothingBefore(Path(db.history, w.shipment), Story(db.outbox, w.shipment), CREATED,
                  Event(w.seqNo.value, w.shipment, Created, CREATED, 1));
    StartedStory(Step(db, CommitTxn(pod)), w.shipment, Event(w.seqNo.value, w.shipment, Created, CREATED, 1));
  }

  lemma NothingBefore(path: seq<Status>, story: seq<Event>, s: Status, e: Event)
    requires path == [] && StoryTells(story, path)
    ensures path + [s] == [s] && story + [e] == [e]
  {
  }

  lemma StartedStory(after: Ships, s: Id, e: Event)
    requires Path(after.history, s) == [CREATED] && Story(after.outbox, s) == [e]
    requires e.kind == Created && e.status == CREATED && e.version == 1 && e.seqNo < after.nextSeq
    requires s in after.rows && after.rows[s] == NEW_ROW
    ensures ShipmentInv(after, s)
  {
    NewShipmentTells();
  }

  lemma StoryBelow(story: seq<Event>, version: int)
    requires StoryRises(story) && (story != [] ==> story[|story| - 1].version < version)
    ensures forall k :: 0 <= k < |story| ==> story[k].version < version
  {
    forall k | 0 <= k < |story| ensures story[k].version < version {
      if k < |story| - 1 {
        assert story[k].version < story[|story| - 1].version;
      }
    }
  }

  /** A committed status change continues it. */
  lemma CommitContinuesStory(db: Ships, pod: Id)
    requires Enabled(db, CommitTxn(pod)) && db.work[pod].Writing? && db.work[pod].kind == StatusChanged
    requires ShipmentInv(db, db.work[pod].shipment) && PodInv(db, pod)
    ensures ShipmentInv(Step(db, CommitTxn(pod)), db.work[pod].shipment)
  {
    var w := db.work[pod];
    var story := Story(db.outbox, w.shipment);
    CommitMovesOwn(db, pod);
    StoryBelow(story, w.row.version);
    StoryExtends(story, Path(db.history, w.shipment),
                 Event(w.seqNo.value, w.shipment, w.kind, w.row.status, w.row.version));
  }

  /** An edit moves only the version of its row. */
  lemma CommitKeepsEdited(db: Ships, pod: Id)
    requires Inv(db) && Enabled(db, CommitTxn(pod)) && db.work[pod].Writing? && db.work[pod].kind == Updated
    ensures ShipmentInv(Step(db, CommitTxn(pod)), db.work[pod].shipment)
  {
    var w := db.work[pod];
    assert ShipmentInv(db, w.shipment) && PodInv(db, pod);
    NoHistory(db.history);
    StorySnoc(db.outbox, Event(w.seqNo.value, w.shipment, w.kind, w.row.status, w.row.version), w.shipment);
  }

  lemma CommitKeepsShipment(db: Ships, pod: Id, s: Id)
    requires Inv(db) && Enabled(db, CommitTxn(pod))
    ensures ShipmentInv(Step(db, CommitTxn(pod)), s)
  {
    var w := db.work[pod];
    if w.Writing? && w.shipment == s {
      assert ShipmentInv(db, s) && PodInv(db, pod);
      match w.kind
      case Created => CommitStartsStory(db, pod);
      case StatusChanged => CommitContinuesStory(db, pod);
      case Updated => CommitKeepsEdited(db, pod);
    } else {
      assert ShipmentInv(db, s);
      CommitLeavesOthers(db, pod, s);
    }
  }

  /** Rows are only ever replaced by rows with the next version, so what was read stays fresh. */
  lemma CommitKeepsFresh(db: Ships, pod: Id, s: Id, seen: Row)
    requires Inv(db) && Enabled(db, CommitTxn(pod)) && Fresh(db, s, seen)
    ensures Fresh(Step(db, CommitTxn(pod)), s, seen)
  {
    assert PodInv(db, pod);
  }

  lemma CommitKeepsWriter(db: Ships, pod: Id, other: Id)
    requires Inv(db) && Enabled(db, CommitTxn(pod)) && other in db.work && other != pod && db.work[other].Writing?
    ensures PodInv(Step(db, CommitTxn(pod)), other)
  {
    assert PodInv(db, pod) && PodInv(db, other);
    CommitLeavesOthers(db, pod, db.work[other].shipment);
  }

  lemma CommitKeepsPod(db: Ships, pod: Id, other: Id)
    requires Inv(db) && Enabled(db, CommitTxn(pod)) && other in db.work && other != pod
    ensures PodInv(Step(db, CommitTxn(pod)), other)
  {
    assert PodInv(db, other);
    if db.work[other].Writing? {
      CommitKeepsWriter(db, pod, other);
    } else {
      CommitKeepsFresh(db, pod, db.work[other].shipment, db.work[other].seen);
    }
  }

  /** The version check makes what was read current, so the change extends the shipment's own history. */
  lemma ChangeWritesNext(db: Ships, pod: Id, target: Status, expected: Option<int>, now: Time)
    requires PodInvOf(db, pod) && ShipmentInv(db, db.work[pod].shipment)
             && Enabled(db, ChangeStatus(pod, target, expected, now))
    ensures PodInv(Step(db, ChangeStatus(pod, target, expected, now)), pod)
  {
    var s := db.work[pod].shipment;
    ChangeTells(db.rows[s], Path(db.history, s), target, now);
    var row := Written(db.rows[s], db.work[pod].seen, target, now);
    assert WritesNext(db, s, row, StatusChanged, [HistoryRow(s, target, now)]);
    assert Step(db, ChangeStatus(pod, target, expected, now)) ==
           Take(db, pod, Writing(s, row, StatusChanged, [HistoryRow(s, target, now)], None));
  }

  lemma EditWritesNext(db: Ships, pod: Id)
    requires PodInvOf(db, pod) && Enabled(db, Edit(pod))
    ensures PodInv(Step(db, Edit(pod)), pod)
  {
  }

  ghost predicate PodInvOf(db: Ships, pod: Id) {
    pod in db.work && PodInv(db, pod)
  }

  lemma QuietKeepsPods(db: Ships, a: Action, pod: Id)
    requires Inv(db) && Enabled(db, a) && !a.CommitTxn? && pod in Step(db, a).work
    ensures PodInv(Step(db, a), pod)
  {
    assert pod in db.work ==> PodInv(db, pod);
    assert a.pod in db.work ==> PodInv(db, a.pod);
    if pod == a.pod {
      match a
      case ChangeStatus(_, target, expected, now) =>
        assert ShipmentInv(db, db.work[pod].shipment);
        ChangeWritesNext(db, pod, target, expected, now);
      case Edit(_) => EditWritesNext(db, pod);
      case DrawSeq(_) => assert ShipmentInv(db, db.work[pod].shipment);
      case _ =>
    }
  }

  lemma StepKeepsLocks(db: Ships, a: Action)
    requires Inv(db) && Enabled(db, a)
    ensures LocksInv(Step(db, a))
  {
    assert a.pod in db.work ==> PodInv(db, a.pod);
  }

  lemma StepKeepsInv(db: Ships, a: Action)
    requires Inv(db) && Enabled(db, a)
    ensures Inv(Step(db, a))
  {
    var after := Step(db, a);
    forall s ensures ShipmentInv(after, s) {
      if a.CommitTxn? {
        CommitKeepsShipment(db, a.pod, s);
      } else {
        QuietStep(db, after, s);
      }
    }
    forall pod | pod in after.work ensures PodInv(after, pod) {
      if a.CommitTxn? {
        CommitKeepsPod(db, a.pod, pod);
      } else {
        QuietKeepsPods(db, a, pod);
      }
    }
    StepKeepsLocks(db, a);
  }

  // ---------------------------------------------------------------- timestamps

  /** A timestamp is the time of the change that entered its status, and is empty if none did. */
  ghost predicate StampTells(stamp: Option<Time>, history: seq<HistoryRow>, s: Id, status: Status) {
    && (forall k :: 0 <= k < |history| && Enters(history[k], s, status) ==> stamp == Some(history[k].at))
    && (stamp.Some? ==> exists k :: 0 <= k < |history| && Enters(history[k], s, status))
  }

  ghost predicate StampsTell(row: Row, history: seq<HistoryRow>, s: Id) {
    && StampTells(row.dispatchedAt, history, s, DISPATCHED) && StampTells(row.pickedUpAt, history, s, PICKED_UP)
    && StampTells(row.deliveredAt, history, s, DELIVERED) && StampTells(row.cancelledAt, history, s, CANCELLED)
  }

  /** A history row of the shipment is a status of its path. */
  lemma {:induction false} HistoryInPath(history: seq<HistoryRow>, s: Id, k: nat)
    requires k < |history| && history[k].shipment == s
    ensures history[k].to in Path(history, s)
    decreases |history|
  {
    if k < |history| - 1 {
      HistoryInPath(history[..|history| - 1], s, k);
    }
  }

  /** One more history row of the shipment: the timestamp of the status it enters is its time, if that status is new to
      the path, and every other one stays. */
  lemma StampExtends(stamp: Option<Time>, history: seq<HistoryRow>, h: HistoryRow, status: Status)
    requires StampTells(stamp, history, h.shipment, status)
    requires h.to == status ==> status !in Path(history, h.shipment)
    ensures StampTells(if h.to == status then Some(h.at) else stamp, history + [h], h.shipment, status)
  {
    var next := history + [h];
    assert next[|history|] == h;
    forall k | 0 <= k < |history| && Enters(history[k], h.shipment, status) ensures h.to != status {
      HistoryInPath(history, h.shipment, k);
    }
    forall k | 0 <= k < |history| ensures next[k] == history[k] {
    }
  }

  /** No other shipment's history row counts. */
  lemma StampsStay(row: Row, history: seq<HistoryRow>, others: seq<HistoryRow>, recorded: seq<HistoryRow>, other: Id,
                   s: Id)
    requires StampsTell(row, history + recorded, s) && other != s
    requires forall k :: 0 <= k < |others| ==> others[k].shipment == other
    ensures StampsTell(row, history + others + recorded, s)
  {
    var before, after := history + recorded, history + others + recorded;
    forall h | h in after && h.shipment == s ensures h in before {
      assert h in history || h in others || h in recorded;
    }
    forall h | h in before ensures h in after {
      assert h in history || h in recorded;
    }
    StampsAgree(row, before, after, s);
  }

  lemma StampsAgree(row: Row, before: seq<HistoryRow>, after: seq<HistoryRow>, s: Id)
    requires StampsTell(row, before, s)
    requires forall h :: h in after && h.shipment == s ==> h in before
    requires forall h :: h in before ==> h in after
    ensures StampsTell(row, after, s)
  {
    forall stamp, status | StampTells(stamp, before, s, status) ensures StampTells(stamp, after, s, status) {
      if stamp.Some? {
        var j :| 0 <= j < |before| && Enters(before[j], s, status);
        assert before[j] in after;
      }
    }
  }

  /** The four statuses with a timestamp are outside the two loops, so an accepted change enters none of them again. */
  lemma StampedIsNew(path: seq<Status>, target: Status)
    requires LegalPath(path + [target]) && target in {DISPATCHED, PICKED_UP, DELIVERED, CANCELLED}
    ensures target !in path
  {
    var next := path + [target];
    forall k | 0 <= k < |path| ensures path[k] != target {
      if next[k] == next[|path|] {
        EnteredAtMostOnce(next, k, |path|);
      }
    }
  }

  lemma ChangeStamps(row: Row, history: seq<HistoryRow>, s: Id, target: Status, now: Time)
    requires StampsTell(row, history, s) && LegalPath(Path(history, s) + [target])
    ensures StampsTell(Written(row, row, target, now), history + [HistoryRow(s, target, now)], s)
  {
    var h := HistoryRow(s, target, now);
    if target in {DISPATCHED, PICKED_UP, DELIVERED, CANCELLED} {
      StampedIsNew(Path(history, s), target);
    }
    StampExtends(row.dispatchedAt, history, h, DISPATCHED);
    StampExtends(row.pickedUpAt, history, h, PICKED_UP);
    StampExtends(row.deliveredAt, history, h, DELIVERED);
    StampExtends(row.cancelledAt, history, h, CANCELLED);
  }

  /** Nor does it touch another shipment's timestamps, committed or staged. */
  lemma CommitLeavesStamps(db: Ships, pod: Id, row: Row, s: Id, recorded: seq<HistoryRow>)
    requires Enabled(db, CommitTxn(pod)) && PodInv(db, pod) && (db.work[pod].Writing? ==> db.work[pod].shipment != s)
    requires StampsTell(row, db.history + recorded, s)
    ensures StampsTell(row, Step(db, CommitTxn(pod)).history + recorded, s)
  {
    var w := db.work[pod];
    if w.Writing? {
      StampsStay(row, db.history, w.recorded, recorded, w.shipment, s);
    }
  }

  ghost predicate RowStamped(db: Ships, s: Id) {
    s in db.rows ==> StampsTell(db.rows[s], db.history, s)
  }

  /** What a transaction is about to commit is stamped as the history with its own row will say. */
  ghost predicate WorkStamped(db: Ships, pod: Id) {
    pod in db.work && db.work[pod].Writing? ==>
      StampsTell(db.work[pod].row, db.history + db.work[pod].recorded, db.work[pod].shipment)
  }

  ghost predicate Stamped(db: Ships) {
    && (forall s {:trigger RowStamped(db, s)} :: RowStamped(db, s))
    && (forall pod {:trigger WorkStamped(db, pod)} :: WorkStamped(db, pod))
  }

  lemma InsertStamps(db: Ships, s: Id, now: Time)
    requires ShipmentInv(db, s) && s !in db.rows
    ensures StampsTell(NEW_ROW, db.history + [HistoryRow(s, CREATED, now)], s)
  {
    forall k | 0 <= k < |db.history| ensures db.history[k].shipment != s {
      if db.history[k].shipment == s {
        HistoryInPath(db.history, s, k);
      }
    }
  }

  lemma StartKeepsStamped(db: Ships, a: Action)
    requires Inv(db) && Stamped(db) && Enabled(db, a) && !a.CommitTxn?
    ensures WorkStamped(Step(db, a), a.pod)
  {
    assert a.pod in db.work ==> PodInv(db, a.pod) && WorkStamped(db, a.pod);
    match a
    case Insert(_, s, now) =>
      assert ShipmentInv(db, s);
      InsertStamps(db, s, now);
    case ChangeStatus(pod, target, _, now) =>
      var s := db.work[pod].shipment;
      assert ShipmentInv(db, s) && RowStamped(db, s);
      StepOn(Path(db.history, s), target);
      ChangeStamps(db.rows[s], db.history, s, target, now);
    case Edit(pod) =>
      assert RowStamped(db, db.work[pod].shipment);
      NoHistory(db.history);
    case _ =>
  }

  lemma CommitKeepsStamped(db: Ships, pod: Id)
    requires Inv(db) && Stamped(db) && Enabled(db, CommitTxn(pod))
    ensures Stamped(Step(db, CommitTxn(pod)))
  {
    var after := Step(db, CommitTxn(pod));
    assert PodInv(db, pod) && WorkStamped(db, pod);
    forall s ensures RowStamped(after, s) {
      assert RowStamped(db, s);
      CommitStampsRow(db, pod, s);
    }
    forall other ensures WorkStamped(after, other) {
      assert WorkStamped(db, other);
      CommitStampsWork(db, pod, other);
    }
  }

  lemma CommitStampsRow(db: Ships, pod: Id, s: Id)
    requires PodInvOf(db, pod) && WorkStamped(db, pod) && RowStamped(db, s) && Enabled(db, CommitTxn(pod))
    ensures RowStamped(Step(db, CommitTxn(pod)), s)
  {
    if s in db.rows && (db.work[pod].Writing? ==> db.work[pod].shipment != s) {
      NoHistory(db.history);
      NoHistory(Step(db, CommitTxn(pod)).history);
      CommitLeavesStamps(db, pod, db.rows[s], s, []);
    }
  }

  lemma CommitStampsWork(db: Ships, pod: Id, other: Id)
    requires Inv(db) && PodInvOf(db, pod) && WorkStamped(db, other) && Enabled(db, CommitTxn(pod))
    ensures WorkStamped(Step(db, CommitTxn(pod)), other)
  {
    if other in db.work && other != pod && db.work[other].Writing? {
      var w := db.work[other];
      assert PodInv(db, other);
      CommitLeavesStamps(db, pod, w.row, w.shipment, w.recorded);
    }
  }

  lemma StepKeepsStamped(db: Ships, a: Action)
    requires Inv(db) && Stamped(db) && Enabled(db, a)
    ensures Stamped(Step(db, a))
  {
    if a.CommitTxn? {
      CommitKeepsStamped(db, a.pod);
    } else {
      var after := Step(db, a);
      StartKeepsStamped(db, a);
      forall s ensures RowStamped(after, s) {
        assert RowStamped(db, s);
      }
      forall pod ensures WorkStamped(after, pod) {
        assert WorkStamped(db, pod);
      }
    }
  }

  // ---------------------------------------------------------------- runs

  ghost predicate EnabledRun(db: Ships, actions: seq<Action>)
    decreases |actions|
  {
    actions == [] || (Enabled(db, actions[0]) && EnabledRun(Step(db, actions[0]), actions[1..]))
  }

  function Run(db: Ships, actions: seq<Action>): Ships
    requires EnabledRun(db, actions)
    decreases |actions|
  {
    if actions == [] then db else Run(Step(db, actions[0]), actions[1..])
  }

  lemma {:induction false} RunKeepsInv(db: Ships, actions: seq<Action>)
    requires Inv(db) && EnabledRun(db, actions)
    ensures Inv(Run(db, actions))
    decreases |actions|
  {
    if actions != [] {
      StepKeepsInv(db, actions[0]);
      RunKeepsInv(Step(db, actions[0]), actions[1..]);
    }
  }

  /** No update is lost: whatever the interleaving, a shipment's committed history is a legal path from CREATED that
      ends in its current status, and its counters and timestamps are those of that path. */
  lemma NoLostUpdate(actions: seq<Action>, s: Id)
    requires EnabledRun(NO_SHIPMENTS, actions)
    ensures var db := Run(NO_SHIPMENTS, actions);
            s in db.rows ==> RowTells(db.rows[s], Path(db.history, s))
  {
    RunKeepsInv(NO_SHIPMENTS, actions);
    assert ShipmentInv(Run(NO_SHIPMENTS, actions), s);
  }

  /** Sequence order is version order: sorted by seq, a shipment's events are created, then its history, with rising
      versions. */
  lemma EventsTellTheHistory(actions: seq<Action>, s: Id)
    requires EnabledRun(NO_SHIPMENTS, actions)
    ensures var db := Run(NO_SHIPMENTS, actions);
            StoryRises(Story(db.outbox, s)) && StoryTells(Story(db.outbox, s), Path(db.history, s))
    ensures var db := Run(NO_SHIPMENTS, actions);
            Path(db.history, s) == [] || LegalPath(Path(db.history, s))
  {
    RunKeepsInv(NO_SHIPMENTS, actions);
    assert ShipmentInv(Run(NO_SHIPMENTS, actions), s);
  }

  /** Each committed change raises the version by exactly one and is a legal step from the status it replaces. */
  lemma CommitRaisesVersionByOne(actions: seq<Action>, pod: Id)
    requires EnabledRun(NO_SHIPMENTS, actions) && Enabled(Run(NO_SHIPMENTS, actions), CommitTxn(pod))
    requires Run(NO_SHIPMENTS, actions).work[pod].Writing?
    ensures var db := Run(NO_SHIPMENTS, actions);
            var after := Step(db, CommitTxn(pod));
            var w := db.work[pod];
            && w.shipment in after.rows
            && (w.kind == Created <==> w.shipment !in db.rows)
            && (w.shipment in db.rows ==>
                  && after.rows[w.shipment].version == db.rows[w.shipment].version + 1
                  && (w.kind == StatusChanged ==>
                        CanTransition(db.rows[w.shipment].status, after.rows[w.shipment].status))
                  && (w.kind == Updated ==> after.rows[w.shipment].status == db.rows[w.shipment].status))
            && (forall t :: t in db.rows && t != w.shipment ==> t in after.rows && after.rows[t] == db.rows[t])
  {
    RunKeepsInv(NO_SHIPMENTS, actions);
    assert PodInv(Run(NO_SHIPMENTS, actions), pod);
  }

  lemma {:induction false} RunKeepsStamped(db: Ships, actions: seq<Action>)
    requires Inv(db) && Stamped(db) && EnabledRun(db, actions)
    ensures Inv(Run(db, actions)) && Stamped(Run(db, actions))
    decreases |actions|
  {
    if actions != [] {
      StepKeepsInv(db, actions[0]);
      StepKeepsStamped(db, actions[0]);
      RunKeepsStamped(Step(db, actions[0]), actions[1..]);
    }
  }

  /** In every interleaving each of a shipment's four timestamps is the time of the change that entered its status. */
  lemma TimestampsAreOfTheirChange(actions: seq<Action>, s: Id)
    requires EnabledRun(NO_SHIPMENTS, actions)
    ensures var db := Run(NO_SHIPMENTS, actions);
            s in db.rows ==> StampsTell(db.rows[s], db.history, s)
  {
    RunKeepsStamped(NO_SHIPMENTS, actions);
    assert RowStamped(Run(NO_SHIPMENTS, actions), s);
  }

  lemma {:induction false} HistoryGrows(db: Ships, actions: seq<Action>)
    requires EnabledRun(db, actions)
    ensures db.history <= Run(db, actions).history && db.rows.Keys <= Run(db, actions).rows.Keys
    decreases |actions|
  {
    if actions != [] {
      HistoryGrows(Step(db, actions[0]), actions[1..]);
    }
  }

  lemma StampStays(before: Option<Time>, after: Option<Time>, history: seq<HistoryRow>, longer: seq<HistoryRow>, s: Id,
                   status: Status)
    requires history <= longer && before.Some?
    requires StampTells(before, history, s, status) && StampTells(after, longer, s, status)
    ensures after == before
  {
    var k :| 0 <= k < |history| && Enters(history[k], s, status);
    assert longer[k] == history[k];
  }

  /** A timestamp once set never moves: no later change, edit or rival of any pod writes it again. */
  lemma TimestampsNeverMove(actions: seq<Action>, more: seq<Action>, s: Id)
    requires EnabledRun(NO_SHIPMENTS, actions) && EnabledRun(Run(NO_SHIPMENTS, actions), more)
    requires s in Run(NO_SHIPMENTS, actions).rows
    ensures var db := Run(NO_SHIPMENTS, actions);
            var later := Run(db, more);
            && s in later.rows
            && var r, q := db.rows[s], later.rows[s];
               && (r.dispatchedAt.Some? ==> q.dispatchedAt == r.dispatchedAt)
               && (r.pickedUpAt.Some? ==> q.pickedUpAt == r.pickedUpAt)
               && (r.deliveredAt.Some? ==> q.deliveredAt == r.deliveredAt)
               && (r.cancelledAt.Some? ==> q.cancelledAt == r.cancelledAt)
  {
    var db := Run(NO_SHIPMENTS, actions);
    var later := Run(db, more);
    RunKeepsStamped(NO_SHIPMENTS, actions);
    RunKeepsStamped(db, more);
    HistoryGrows(db, more);
    assert RowStamped(db, s) && RowStamped(later, s);
    var r, q := db.rows[s], later.rows[s];
    if r.dispatchedAt.Some? {
      StampStays(r.dispatchedAt, q.dispatchedAt, db.history, later.history, s, DISPATCHED);
    }
    if r.pickedUpAt.Some? {
      StampStays(r.pickedUpAt, q.pickedUpAt, db.history, later.history, s, PICKED_UP);
    }
    if r.deliveredAt.Some? {
      StampStays(r.deliveredAt, q.deliveredAt, db.history, later.history, s, DELIVERED);
    }
    if r.cancelledAt.Some? {
      StampStays(r.cancelledAt, q.cancelledAt, db.history, later.history, s, CANCELLED);
    }
  }

  /** How a stamp column relates to what it was when one more history row is committed. */
  predicate StampMoves(before: Option<Time>, after: Option<Time>, h: HistoryRow, status: Status) {
    after == if h.to == status then Some(h.at) else before
  }

  lemma StampMovesOnce(before: Option<Time>, after: Option<Time>, history: seq<HistoryRow>, h: HistoryRow,
                       status: Status)
    requires StampTells(before, history, h.shipment, status) && StampTells(after, history + [h], h.shipment, status)
    ensures StampMoves(before, after, h, status)
  {
    var longer := history + [h];
    assert longer[|history|] == h;
    if h.to != status && before.Some? {
      StampStays(before, after, history, longer, h.shipment, status);
    }
    if h.to != status && after.Some? {
      var k :| 0 <= k < |longer| && Enters(longer[k], h.shipment, status);
      assert history[k] == longer[k];
    }
  }

  /** One committed status change, column by column: the new status, the next version, one more attempt if a delivery
      failed, the timestamp of its own status, and nothing else. */
  lemma ChangeTouchesItsColumns(actions: seq<Action>, pod: Id)
    requires EnabledRun(NO_SHIPMENTS, actions) && Enabled(Run(NO_SHIPMENTS, actions), CommitTxn(pod))
    requires var w := Run(NO_SHIPMENTS, actions).work[pod]; w.Writing? && w.kind == StatusChanged
    ensures var db := Run(NO_SHIPMENTS, actions);
            var w, after := db.work[pod], Step(db, CommitTxn(pod));
            && w.shipment in db.rows && w.shipment in after.rows && |w.recorded| == 1
            && var r, q, h := db.rows[w.shipment], after.rows[w.shipment], w.recorded[0];
               && after.history == db.history + [h] && h.shipment == w.shipment && h.to == q.status
               && CanTransition(r.status, q.status) && q.version == r.version + 1
               && q.attempts == r.attempts + (if q.status == DELIVERY_FAILED then 1 else 0)
               && StampMoves(r.dispatchedAt, q.dispatchedAt, h, DISPATCHED)
               && StampMoves(r.pickedUpAt, q.pickedUpAt, h, PICKED_UP)
               && StampMoves(r.deliveredAt, q.deliveredAt, h, DELIVERED)
               && StampMoves(r.cancelledAt, q.cancelledAt, h, CANCELLED)
  {
    RunKeepsStamped(NO_SHIPMENTS, actions);
    var db := Run(NO_SHIPMENTS, actions);
    var w, after := db.work[pod], Step(db, CommitTxn(pod));
    assert PodInv(db, pod) && RowStamped(db, w.shipment) && WorkStamped(db, pod) && ShipmentInv(db, w.shipment);
    var r, q, h := db.rows[w.shipment], after.rows[w.shipment], w.recorded[0];
    assert w.recorded == [h];
    var path := Path(db.history, w.shipment);
    assert (path + [q.status])[..|path|] == path;
    StampMovesOnce(r.dispatchedAt, q.dispatchedAt, db.history, h, DISPATCHED);
    StampMovesOnce(r.pickedUpAt, q.pickedUpAt, db.history, h, PICKED_UP);
    StampMovesOnce(r.deliveredAt, q.deliveredAt, db.history, h, DELIVERED);
    StampMovesOnce(r.cancelledAt, q.cancelledAt, db.history, h, CANCELLED);
  }

  /** A committed edit is of a shipment that may still be edited, and moves its version only; and a commit's event tells
      the row it leaves: the shipment, its status and its version, under the number that was drawn for it. */
  lemma EventTellsTheRow(actions: seq<Action>, pod: Id)
    requires EnabledRun(NO_SHIPMENTS, actions) && Enabled(Run(NO_SHIPMENTS, actions), CommitTxn(pod))
    requires Run(NO_SHIPMENTS, actions).work[pod].Writing?
    ensures var db := Run(NO_SHIPMENTS, actions);
            var w, after := db.work[pod], Step(db, CommitTxn(pod));
            && w.shipment in after.rows && |after.outbox| == |db.outbox| + 1 && db.outbox <= after.outbox
            && var e, q := after.outbox[|db.outbox|], after.rows[w.shipment];
               && e.shipment == w.shipment && e.kind == w.kind && Some(e.seqNo) == w.seqNo
               && e.status == q.status && e.version == q.version
               && (w.kind == Updated ==>
                     && q.status in EDITABLE_STATES
                     && w.shipment in db.rows && q == db.rows[w.shipment].(version := db.rows[w.shipment].version + 1)
                     && after.history == db.history)
  {
    RunKeepsInv(NO_SHIPMENTS, actions);
    var db := Run(NO_SHIPMENTS, actions);
    assert PodInv(db, pod);
    NoHistory(db.history);
  }
}
