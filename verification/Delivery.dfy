/** Outbox, broker and deduplicating consumer: at-least-once delivery turned into effects applied once and in order. */
module Delivery {
  // Producers commit rows, relays publish them batch by batch, the broker keeps one append-only log per partition,
  // and consumers apply handlers in the transaction that records the event id. Relays may crash before they commit
  // their marks, sends may fail after the broker took the message, consumers may crash on either side of their database
  // commit and restart from any committed or earlier offset.

  import opened Common

  datatype Row = Row(seqNo: nat, event: Id, key: Id, partition: Id, kind: Id)

  /** A relay's open transaction: the rows it locked and how many it has sent. */
  datatype Batch = Batch(rows: seq<Row>, sent: nat, stopped: bool)

  datatype Cursor = Cursor(partition: Id, pos: nat)

  /** `rows` is the outbox in commit order. `applied` is the consumer's handled rows in the order their transactions
      committed, `processed` its dedupe table, and `states` the handlers' effect on each key. */
  datatype Pipe<S> = Pipe(rows: seq<Row>, published: set<Row>, relays: map<Id, Batch>, logs: map<Id, seq<Row>>,
                          offsets: map<Id, nat>, cursors: map<Id, Cursor>,
                          processed: set<Id>, applied: seq<Row>, states: map<Id, S>)

  /** The consumer: the event types it handles, what a handler does to its key's state, and the state of an untouched
      key. */
  datatype Consumer<!S> = Consumer(kinds: set<Id>, handler: (S, Row) -> S, initial: S)

  datatype Action =
    | Produce(row: Row)
    | RelayStart(relay: Id, batch: seq<Row>)
    | RelaySent(relay: Id)
    | RelaySendFailed(relay: Id, arrived: bool)
    | RelayCommit(relay: Id)
    | RelayCrash(relay: Id)
    | Join(pod: Id, partition: Id, pos: nat)
    | Deliver(pod: Id)
    | HandlerFails(pod: Id)
    | GiveUp(pod: Id)
    | CommitOffset(pod: Id)
    | Crash(pod: Id)

  function LogOf(logs: map<Id, seq<Row>>, partition: Id): seq<Row> {
    if partition in logs then logs[partition] else []
  }

  function OffsetOf(offsets: map<Id, nat>, partition: Id): nat {
    if partition in offsets then offsets[partition] else 0
  }

  function StateOf<S>(states: map<Id, S>, initial: S, key: Id): S {
    if key in states then states[key] else initial
  }

  /** `earlier` is a handled event of the same key that precedes `later` in sequence order. */
  predicate Precedes(kinds: set<Id>, earlier: Row, later: Row) {
    earlier.key == later.key && earlier.kind in kinds && later.kind in kinds && earlier.seqNo < later.seqNo
  }

  /** A key's handled events enter the outbox in sequence order and on one partition: the aggregate's row lock is held
      from before the number is drawn until the commit. */
  predicate KeepsKeyOrder(kinds: set<Id>, rows: seq<Row>, row: Row) {
    forall j :: 0 <= j < |rows| ==>
      && rows[j].event != row.event && rows[j].seqNo != row.seqNo
      && (rows[j].key == row.key ==> rows[j].partition == row.partition)
      && !Precedes(kinds, row, rows[j])
  }

  predicate LockedElsewhere(relays: map<Id, Batch>, relay: Id, row: Row) {
    exists r :: r in relays && r != relay && row in relays[r].rows
  }

  predicate IsPending<S>(p: Pipe<S>, relay: Id, row: Row) {
    row !in p.published && !LockedElsewhere(p.relays, relay, row)
  }

  /** The batch query: pending rows by seq, some first part of them, skipping rows other relays have locked. */
  ghost predicate IsBatch<S>(p: Pipe<S>, relay: Id, batch: seq<Row>) {
    && (forall m :: 0 <= m < |batch| ==>
          batch[m] in p.rows && IsPending(p, relay, batch[m]))
    && (forall m, n :: 0 <= m < n < |batch| ==> batch[m].seqNo < batch[n].seqNo)
    && (forall m, row :: 0 <= m < |batch| && row in p.rows && IsPending(p, relay, row) && row.seqNo < batch[m].seqNo ==>
          row in batch[..m])
  }

  ghost predicate Enabled<S>(c: Consumer<S>, p: Pipe<S>, a: Action) {
    match a
    case Produce(row) => KeepsKeyOrder(c.kinds, p.rows, row)
    case RelayStart(r, batch) => r !in p.relays && IsBatch(p, r, batch)
    case RelaySent(r) => r in p.relays && !p.relays[r].stopped && p.relays[r].sent < |p.relays[r].rows|
    case RelaySendFailed(r, _) => r in p.relays && !p.relays[r].stopped && p.relays[r].sent < |p.relays[r].rows|
    case RelayCommit(r) => r in p.relays && (p.relays[r].stopped || p.relays[r].sent == |p.relays[r].rows|)
    case RelayCrash(r) => r in p.relays
    case Join(pod, partition, pos) => pod !in p.cursors && pos <= OffsetOf(p.offsets, partition)
    case Deliver(pod) => pod in p.cursors && p.cursors[pod].pos < |LogOf(p.logs, p.cursors[pod].partition)|
    case HandlerFails(pod) => pod in p.cursors && p.cursors[pod].pos < |LogOf(p.logs, p.cursors[pod].partition)|
    case GiveUp(pod) => pod in p.cursors && p.cursors[pod].pos < |LogOf(p.logs, p.cursors[pod].partition)|
    case CommitOffset(pod) => pod in p.cursors
    case Crash(pod) => pod in p.cursors
  }

  function Appended(logs: map<Id, seq<Row>>, row: Row): map<Id, seq<Row>> {
    logs[row.partition := LogOf(logs, row.partition) + [row]]
  }

  /** EventProcessor.process: unhandled kinds and known ids are skipped; otherwise the id is recorded with the
      effect. */
  function Processed<S>(c: Consumer<S>, p: Pipe<S>, row: Row): Pipe<S> {
    if row.kind !in c.kinds || row.event in p.processed then p
    else p.(processed := p.processed + {row.event}, applied := p.applied + [row],
            states := p.states[row.key := c.handler(StateOf(p.states, c.initial, row.key), row)])
  }

  function Advanced(cur: Cursor): Cursor { cur.(pos := cur.pos + 1) }

  function Step<S>(c: Consumer<S>, p: Pipe<S>, a: Action): Pipe<S>
    requires Enabled(c, p, a)
  {
    match a
    case Produce(row) => p.(rows := p.rows + [row])
    case RelayStart(r, batch) => p.(relays := p.relays[r := Batch(batch, 0, false)])
    case RelaySent(r) =>
      var b := p.relays[r];
      p.(logs := Appended(p.logs, b.rows[b.sent]), relays := p.relays[r := b.(sent := b.sent + 1)])
    case RelaySendFailed(r, arrived) =>
      var b := p.relays[r];
      p.(logs := if arrived then Appended(p.logs, b.rows[b.sent]) else p.logs,
         relays := p.relays[r := b.(stopped := true)])
    case RelayCommit(r) =>
      var b := p.relays[r];
      p.(published := p.published + (set m | 0 <= m < b.sent && m < |b.rows| :: b.rows[m]), relays := p.relays - {r})
    case RelayCrash(r) => p.(relays := p.relays - {r})
    case Join(pod, partition, pos) => p.(cursors := p.cursors[pod := Cursor(partition, pos)])
    case Deliver(pod) =>
      var cur := p.cursors[pod];
      Processed(c, p, LogOf(p.logs, cur.partition)[cur.pos]).(cursors := p.cursors[pod := Advanced(cur)])
    case HandlerFails(_) => p
    case GiveUp(pod) => p.(cursors := p.cursors[pod := Advanced(p.cursors[pod])])
    case CommitOffset(pod) => p.(offsets := p.offsets[p.cursors[pod].partition := p.cursors[pod].pos])
    case Crash(pod) => p.(cursors := p.cursors - {pod})
  }

  function Start<S>(): Pipe<S> { Pipe([], {}, map[], map[], map[], map[], {}, [], map[]) }

  // ---------------------------------------------------------------- the story of one key

  /** A key's handled rows, in list order. */
  function KeyRows(kinds: set<Id>, rows: seq<Row>, key: Id): seq<Row> {
    if rows == [] then []
    else
      var n := |rows| - 1;
      KeyRows(kinds, rows[..n], key) + (if rows[n].key == key && rows[n].kind in kinds then [rows[n]] else [])
  }

  function Fold<S>(handler: (S, Row) -> S, initial: S, rows: seq<Row>): S {
    if rows == [] then initial else handler(Fold(handler, initial, rows[..|rows| - 1]), rows[|rows| - 1])
  }

  // ---------------------------------------------------------------- what holds with any number of relays and drops

  predicate DistinctRows(rows: seq<Row>) {
    forall j, k :: 0 <= j < k < |rows| ==> rows[j].event != rows[k].event && rows[j].seqNo != rows[k].seqNo
  }

  ghost predicate OutboxInv(kinds: set<Id>, rows: seq<Row>) {
    && DistinctRows(rows)
    && (forall j, k :: 0 <= j < k < |rows| ==>
          (rows[j].key == rows[k].key ==> rows[j].partition == rows[k].partition) && !Precedes(kinds, rows[k], rows[j]))
  }

  /** Everything on its way was committed first: nothing is published, locked or logged that is not in the outbox. */
  ghost predicate OnlyCommitted<S>(p: Pipe<S>) {
    && p.published <= (set row | row in p.rows)
    && (forall r :: r in p.relays ==>
          && p.relays[r].sent <= |p.relays[r].rows|
          && forall m :: 0 <= m < |p.relays[r].rows| ==> p.relays[r].rows[m] in p.rows)
    && (forall q :: q in p.logs ==> forall j :: 0 <= j < |p.logs[q]| ==>
          p.logs[q][j] in p.rows && p.logs[q][j].partition == q)
  }

  /** The consumer applied handled, committed rows, each once, and its states are the folds of what it applied. */
  ghost predicate AppliedInv<S>(c: Consumer<S>, p: Pipe<S>) {
    && (forall n :: 0 <= n < |p.applied| ==> p.applied[n] in p.rows && p.applied[n].kind in c.kinds)
    && (forall m, n :: 0 <= m < n < |p.applied| ==> p.applied[m].event != p.applied[n].event)
    && p.processed == (set n | 0 <= n < |p.applied| :: p.applied[n].event)
    && (forall key {:trigger StateOf(p.states, c.initial, key)} ::
          StateOf(p.states, c.initial, key) == Fold(c.handler, c.initial, KeyRows(c.kinds, p.applied, key)))
  }

  ghost predicate BaseInv<S>(c: Consumer<S>, p: Pipe<S>) {
    OutboxInv(c.kinds, p.rows) && OnlyCommitted(p) && AppliedInv(c, p)
  }

  lemma KeyRowsSnoc(kinds: set<Id>, rows: seq<Row>, row: Row, key: Id)
    ensures KeyRows(kinds, rows + [row], key) ==
            if row.key == key && row.kind in kinds then KeyRows(kinds, rows, key) + [row] else KeyRows(kinds, rows, key)
  {
    assert (rows + [row])[..|rows|] == rows;
  }

  lemma FoldSnoc<S>(handler: (S, Row) -> S, initial: S, rows: seq<Row>, row: Row)
    ensures Fold(handler, initial, rows + [row]) == handler(Fold(handler, initial, rows), row)
  {
    assert (rows + [row])[..|rows|] == rows;
  }

  lemma ProcessedKeepsStates<S>(c: Consumer<S>, p: Pipe<S>, row: Row, key: Id)
    requires AppliedInv(c, p)
    ensures var after := Processed(c, p, row);
            StateOf(after.states, c.initial, key) == Fold(c.handler, c.initial, KeyRows(c.kinds, after.applied, key))
  {
    assert StateOf(p.states, c.initial, key) == Fold(c.handler, c.initial, KeyRows(c.kinds, p.applied, key));
    KeyRowsSnoc(c.kinds, p.applied, row, key);
    FoldSnoc(c.handler, c.initial, KeyRows(c.kinds, p.applied, key), row);
  }

  lemma ProcessedKeepsApplied<S>(c: Consumer<S>, p: Pipe<S>, row: Row)
    requires AppliedInv(c, p) && row in p.rows
    ensures AppliedInv(c, Processed(c, p, row))
  {
    var after := Processed(c, p, row);
    forall key
      ensures StateOf(after.states, c.initial, key) == Fold(c.handler, c.initial, KeyRows(c.kinds, after.applied, key))
    {
      ProcessedKeepsStates(c, p, row, key);
    }
    if row.kind in c.kinds && row.event !in p.processed {
      var n := |p.applied|;
      assert after.applied[n].event == row.event && forall m :: 0 <= m < n ==> after.applied[m] == p.applied[m];
      assert after.processed == set m | 0 <= m < |after.applied| :: after.applied[m].event;
    }
  }

  lemma StepKeepsOutbox<S>(c: Consumer<S>, p: Pipe<S>, a: Action)
    requires OutboxInv(c.kinds, p.rows) && Enabled(c, p, a)
    ensures OutboxInv(c.kinds, Step(c, p, a).rows) && p.rows <= Step(c, p, a).rows
  {
  }

  lemma StepKeepsCommitted<S>(c: Consumer<S>, p: Pipe<S>, a: Action)
    requires OnlyCommitted(p) && Enabled(c, p, a)
    ensures OnlyCommitted(Step(c, p, a))
  {
  }

  lemma StepKeepsApplied<S>(c: Consumer<S>, p: Pipe<S>, a: Action)
    requires BaseInv(c, p) && Enabled(c, p, a)
    ensures AppliedInv(c, Step(c, p, a))
  {
    if a.Deliver? {
      var cur := p.cursors[a.pod];
      ProcessedKeepsApplied(c, p, LogOf(p.logs, cur.partition)[cur.pos]);
    }
  }

  lemma StepKeepsBase<S>(c: Consumer<S>, p: Pipe<S>, a: Action)
    requires BaseInv(c, p) && Enabled(c, p, a)
    ensures BaseInv(c, Step(c, p, a))
  {
    StepKeepsOutbox(c, p, a);
    StepKeepsCommitted(c, p, a);
    StepKeepsApplied(c, p, a);
  }

  // ---------------------------------------------------------------- what no drops add: nothing is lost

  /** The pod gives up on an event of this key that has not been applied. */
  predicate Loses<S>(c: Consumer<S>, p: Pipe<S>, a: Action, key: Id)
    requires Enabled(c, p, a)
  {
    a.GiveUp? &&
    var row := LogOf(p.logs, p.cursors[a.pod].partition)[p.cursors[a.pod].pos];
    row.key == key && row.kind in c.kinds && row.event !in p.processed
  }

  /** Every handled row of the key below `pos` has been applied. */
  ghost predicate CaughtUp<S>(c: Consumer<S>, p: Pipe<S>, partition: Id, pos: nat, key: Id) {
    var log := LogOf(p.logs, partition);
    && pos <= |log|
    && forall j :: 0 <= j < pos && log[j].key == key && log[j].kind in c.kinds ==> log[j].event in p.processed
  }

  ghost predicate CursorsCaughtUp<S>(c: Consumer<S>, p: Pipe<S>, key: Id) {
    && (forall q :: q in p.offsets ==> CaughtUp(c, p, q, p.offsets[q], key))
    && (forall pod :: pod in p.cursors ==> CaughtUp(c, p, p.cursors[pod].partition, p.cursors[pod].pos, key))
  }

  /** Logs only grow and what was applied stays applied. */
  lemma StepKeepsCaughtUp<S>(c: Consumer<S>, p: Pipe<S>, a: Action, partition: Id, pos: nat, key: Id)
    requires Enabled(c, p, a) && CaughtUp(c, p, partition, pos, key)
    ensures CaughtUp(c, Step(c, p, a), partition, pos, key)
  {
  }

  lemma StepKeepsOffset<S>(c: Consumer<S>, p: Pipe<S>, a: Action, q: Id, key: Id)
    requires CursorsCaughtUp(c, p, key) && Enabled(c, p, a) && q in Step(c, p, a).offsets
    ensures CaughtUp(c, Step(c, p, a), q, Step(c, p, a).offsets[q], key)
  {
    if a.CommitOffset? && q == p.cursors[a.pod].partition {
      StepKeepsCaughtUp(c, p, a, q, p.cursors[a.pod].pos, key);
    } else {
      StepKeepsCaughtUp(c, p, a, q, p.offsets[q], key);
    }
  }

  lemma StepKeepsCursor<S>(c: Consumer<S>, p: Pipe<S>, a: Action, pod: Id, key: Id)
    requires CursorsCaughtUp(c, p, key) && Enabled(c, p, a) && !Loses(c, p, a, key) && pod in Step(c, p, a).cursors
    ensures CaughtUp(c, Step(c, p, a), Step(c, p, a).cursors[pod].partition, Step(c, p, a).cursors[pod].pos, key)
  {
    if a.Join? && pod == a.pod {
      JoinIsCaughtUp(c, p, a.partition, a.pos, key);
      StepKeepsCaughtUp(c, p, a, a.partition, a.pos, key);
    } else {
      StepKeepsCaughtUp(c, p, a, p.cursors[pod].partition, p.cursors[pod].pos, key);
    }
  }

  lemma JoinIsCaughtUp<S>(c: Consumer<S>, p: Pipe<S>, partition: Id, pos: nat, key: Id)
    requires CursorsCaughtUp(c, p, key) && pos <= OffsetOf(p.offsets, partition)
    ensures CaughtUp(c, p, partition, pos, key)
  {
    assert partition in p.offsets ==> CaughtUp(c, p, partition, p.offsets[partition], key);
  }

  lemma StepKeepsCursors<S>(c: Consumer<S>, p: Pipe<S>, a: Action, key: Id)
    requires CursorsCaughtUp(c, p, key) && Enabled(c, p, a) && !Loses(c, p, a, key)
    ensures CursorsCaughtUp(c, Step(c, p, a), key)
  {
    var after := Step(c, p, a);
    forall q | q in after.offsets ensures CaughtUp(c, after, q, after.offsets[q], key) {
      StepKeepsOffset(c, p, a, q, key);
    }
    forall pod | pod in after.cursors
      ensures CaughtUp(c, after, after.cursors[pod].partition, after.cursors[pod].pos, key)
    {
      StepKeepsCursor(c, p, a, pod, key);
    }
  }

  // ---------------------------------------------------------------- what one relay at a time adds: order

  /** Every committed predecessor of a row is among `seen`. */
  ghost predicate PredecessorsIn(kinds: set<Id>, rows: seq<Row>, row: Row, seen: seq<Row>) {
    forall j :: 0 <= j < |rows| && Precedes(kinds, rows[j], row) ==> rows[j] in seen
  }

  /** A list is closed for a key when each of the key's rows in it comes after all its committed predecessors. */
  ghost predicate Closed(kinds: set<Id>, rows: seq<Row>, list: seq<Row>, key: Id) {
    forall n {:trigger list[..n]} :: 0 <= n < |list| && list[n].key == key ==>
      PredecessorsIn(kinds, rows, list[n], list[..n])
  }

  ghost predicate LogsClosed<S>(c: Consumer<S>, p: Pipe<S>, key: Id) {
    forall q :: q in p.logs ==> Closed(c.kinds, p.rows, p.logs[q], key)
  }

  ghost predicate PublishedLogged<S>(p: Pipe<S>) {
    forall row :: row in p.published ==> row in LogOf(p.logs, row.partition)
  }

  /** Of a batch, what was sent is logged, and what a row of the key waits for is published or earlier in the batch. */
  ghost predicate BatchInv<S>(c: Consumer<S>, p: Pipe<S>, b: Batch, key: Id) {
    && b.sent <= |b.rows|
    && (forall m :: 0 <= m < b.sent ==> b.rows[m] in LogOf(p.logs, b.rows[m].partition))
    && (forall m {:trigger b.rows[..m]} :: 0 <= m < |b.rows| && b.rows[m].key == key ==>
          forall j :: 0 <= j < |p.rows| && Precedes(c.kinds, p.rows[j], b.rows[m]) ==>
            p.rows[j] in p.published || p.rows[j] in b.rows[..m])
  }

  predicate Touches(rows: seq<Row>, key: Id) {
    exists m :: 0 <= m < |rows| && rows[m].key == key
  }

  /** No relay is at work on the key's rows. */
  ghost predicate NoRelayOn<S>(p: Pipe<S>, key: Id) {
    forall r :: r in p.relays ==> !Touches(p.relays[r].rows, key)
  }

  ghost predicate BatchesFit<S>(c: Consumer<S>, p: Pipe<S>, key: Id) {
    forall r :: r in p.relays ==> BatchInv(c, p, p.relays[r], key)
  }

  ghost predicate OrderInv<S>(c: Consumer<S>, p: Pipe<S>, key: Id) {
    && BaseInv(c, p) && LogsClosed(c, p, key) && PublishedLogged(p) && BatchesFit(c, p, key)
    && CursorsCaughtUp(c, p, key)
    && Closed(c.kinds, p.rows, p.applied, key)
  }

  /** No event of the key is given up on, and no relay takes up rows of the key while another is at work on some. */
  ghost predicate Orderly<S>(c: Consumer<S>, p: Pipe<S>, a: Action, key: Id)
    requires Enabled(c, p, a)
  {
    !Loses(c, p, a, key) && (a.RelayStart? && Touches(a.batch, key) ==> NoRelayOn(p, key))
  }

  /** A new row precedes no committed row, so closed lists stay closed. */
  lemma ProduceKeepsClosed(kinds: set<Id>, rows: seq<Row>, row: Row, list: seq<Row>, key: Id)
    requires KeepsKeyOrder(kinds, rows, row) && Closed(kinds, rows, list, key)
             && forall n :: 0 <= n < |list| ==> list[n] in rows
    ensures Closed(kinds, rows + [row], list, key)
  {
    var more := rows + [row];
    forall n | 0 <= n < |list| && list[n].key == key ensures PredecessorsIn(kinds, more, list[n], list[..n]) {
      assert PredecessorsIn(kinds, rows, list[n], list[..n]);
    }
  }

  lemma AppendKeepsClosed(kinds: set<Id>, rows: seq<Row>, list: seq<Row>, row: Row, key: Id)
    requires Closed(kinds, rows, list, key) && (row.key == key ==> PredecessorsIn(kinds, rows, row, list))
    ensures Closed(kinds, rows, list + [row], key)
  {
    var more := list + [row];
    forall n | 0 <= n < |more| && more[n].key == key ensures PredecessorsIn(kinds, rows, more[n], more[..n]) {
      if n < |list| {
        assert more[..n] == list[..n];
      } else {
        assert more[..n] == list;
      }
    }
  }

  /** When a relay sends its next row of the key, everything that row waits for is already logged. */
  lemma NextSendIsReady<S>(c: Consumer<S>, p: Pipe<S>, r: Id, key: Id)
    requires OrderInv(c, p, key) && r in p.relays && p.relays[r].sent < |p.relays[r].rows|
    requires p.relays[r].rows[p.relays[r].sent].key == key
    ensures var row := p.relays[r].rows[p.relays[r].sent];
            PredecessorsIn(c.kinds, p.rows, row, LogOf(p.logs, row.partition))
  {
    var b := p.relays[r];
    var row := b.rows[b.sent];
    forall j | 0 <= j < |p.rows| && Precedes(c.kinds, p.rows[j], row)
      ensures p.rows[j] in LogOf(p.logs, row.partition)
    {
      assert p.rows[j] in p.published || p.rows[j] in b.rows[..b.sent];
      var k :| 0 <= k < |p.rows| && p.rows[k] == row;
      assert p.rows[j].partition == row.partition;
    }
  }

  lemma SendKeepsLogs<S>(c: Consumer<S>, p: Pipe<S>, r: Id, key: Id)
    requires OrderInv(c, p, key) && r in p.relays && p.relays[r].sent < |p.relays[r].rows|
    ensures var logs := Appended(p.logs, p.relays[r].rows[p.relays[r].sent]);
            forall q :: q in logs ==> Closed(c.kinds, p.rows, logs[q], key)
  {
    var row := p.relays[r].rows[p.relays[r].sent];
    if row.key == key {
      NextSendIsReady(c, p, r, key);
    }
    AppendKeepsClosed(c.kinds, p.rows, LogOf(p.logs, row.partition), row, key);
  }

  lemma StepKeepsLogs<S>(c: Consumer<S>, p: Pipe<S>, a: Action, key: Id)
    requires OrderInv(c, p, key) && Enabled(c, p, a)
    ensures LogsClosed(c, Step(c, p, a), key)
  {
    match a
    case Produce(row) =>
      forall q | q in p.logs ensures Closed(c.kinds, p.rows + [row], p.logs[q], key) {
        ProduceKeepsClosed(c.kinds, p.rows, row, p.logs[q], key);
      }
    case RelaySent(r) => SendKeepsLogs(c, p, r, key);
    case RelaySendFailed(r, arrived) => SendKeepsLogs(c, p, r, key);
    case _ =>
  }

  lemma StepKeepsPublished<S>(c: Consumer<S>, p: Pipe<S>, a: Action, key: Id)
    requires OrderInv(c, p, key) && Enabled(c, p, a)
    ensures PublishedLogged(Step(c, p, a))
  {
    if a.RelayCommit? {
      assert BatchInv(c, p, p.relays[a.relay], key);
    }
  }

  /** If no other relay holds rows of the key, a fresh batch leaves out no predecessor: what is not yet published comes
      earlier in the batch. */
  lemma StartMakesBatch<S>(c: Consumer<S>, p: Pipe<S>, r: Id, batch: seq<Row>, key: Id)
    requires IsBatch(p, r, batch) && (Touches(batch, key) ==> NoRelayOn(p, key))
    ensures BatchInv(c, p, Batch(batch, 0, false), key)
  {
    forall m, j | 0 <= m < |batch| && batch[m].key == key && 0 <= j < |p.rows| && Precedes(c.kinds, p.rows[j], batch[m])
      ensures p.rows[j] in p.published || p.rows[j] in batch[..m]
    {
      assert !LockedElsewhere(p.relays, r, p.rows[j]);
      assert p.rows[j] in p.published || IsPending(p, r, p.rows[j]);
    }
  }

  /** A batch already under way stays sound while logs and marks grow and its relay sends on. */
  lemma BatchGoesOn<S>(c: Consumer<S>, p: Pipe<S>, after: Pipe<S>, b: Batch, next: Batch, key: Id)
    requires BatchInv(c, p, b, key) && next.rows == b.rows && next.sent <= |b.rows|
    requires after.rows == p.rows && p.published <= after.published
    requires forall m :: 0 <= m < next.sent ==> b.rows[m] in LogOf(after.logs, b.rows[m].partition)
    ensures BatchInv(c, after, next, key)
  {
  }

  lemma ProduceKeepsBatch<S>(c: Consumer<S>, p: Pipe<S>, row: Row, b: Batch, key: Id)
    requires BatchInv(c, p, b, key) && KeepsKeyOrder(c.kinds, p.rows, row)
    requires forall m :: 0 <= m < |b.rows| ==> b.rows[m] in p.rows
    ensures BatchInv(c, p.(rows := p.rows + [row]), b, key)
  {
  }

  lemma StepKeepsBatch<S>(c: Consumer<S>, p: Pipe<S>, a: Action, r: Id, key: Id)
    requires OrderInv(c, p, key) && Enabled(c, p, a) && Orderly(c, p, a, key) && r in Step(c, p, a).relays
    ensures BatchInv(c, Step(c, p, a), Step(c, p, a).relays[r], key)
  {
    var after := Step(c, p, a);
    if a.Produce? {
      ProduceKeepsBatch(c, p, a.row, p.relays[r], key);
    } else if a.RelayStart? && a.relay == r {
      StartMakesBatch(c, p, r, a.batch, key);
      BatchGoesOn(c, p, after, Batch(a.batch, 0, false), after.relays[r], key);
    } else {
      BatchGoesOn(c, p, after, p.relays[r], after.relays[r], key);
    }
  }

  /** A row of the key is applied only after its predecessors: they stand before it in its log, below the cursor. */
  lemma DeliverKeepsOrder<S>(c: Consumer<S>, p: Pipe<S>, pod: Id, key: Id)
    requires OrderInv(c, p, key) && Enabled(c, p, Deliver(pod))
    ensures Closed(c.kinds, p.rows, Step(c, p, Deliver(pod)).applied, key)
  {
    var cur := p.cursors[pod];
    var log := LogOf(p.logs, cur.partition);
    var row := log[cur.pos];
    if row.kind in c.kinds && row.event !in p.processed {
      if row.key == key {
        PredecessorsApplied(c, p, pod, key);
      }
      AppendKeepsClosed(c.kinds, p.rows, p.applied, row, key);
    }
  }

  lemma PredecessorsApplied<S>(c: Consumer<S>, p: Pipe<S>, pod: Id, key: Id)
    requires OrderInv(c, p, key) && Enabled(c, p, Deliver(pod))
    requires LogOf(p.logs, p.cursors[pod].partition)[p.cursors[pod].pos].key == key
    ensures PredecessorsIn(c.kinds, p.rows, LogOf(p.logs, p.cursors[pod].partition)[p.cursors[pod].pos], p.applied)
  {
    var cur := p.cursors[pod];
    var log := LogOf(p.logs, cur.partition);
    var row := log[cur.pos];
    assert PredecessorsIn(c.kinds, p.rows, row, log[..cur.pos]);
    forall j | 0 <= j < |p.rows| && Precedes(c.kinds, p.rows[j], row) ensures p.rows[j] in p.applied {
      assert p.rows[j] in log[..cur.pos];
      assert p.rows[j].event in p.processed;
      var n :| 0 <= n < |p.applied| && p.applied[n].event == p.rows[j].event;
      var k :| 0 <= k < |p.rows| && p.rows[k] == p.applied[n];
    }
  }

  lemma StepKeepsOrder<S>(c: Consumer<S>, p: Pipe<S>, a: Action, key: Id)
    requires OrderInv(c, p, key) && Enabled(c, p, a)
    ensures Closed(c.kinds, Step(c, p, a).rows, Step(c, p, a).applied, key)
  {
    match a
    case Produce(row) => ProduceKeepsClosed(c.kinds, p.rows, row, p.applied, key);
    case Deliver(pod) => DeliverKeepsOrder(c, p, pod, key);
    case _ =>
  }

  lemma StepKeepsOrderInv<S>(c: Consumer<S>, p: Pipe<S>, a: Action, key: Id)
    requires OrderInv(c, p, key) && Enabled(c, p, a) && Orderly(c, p, a, key)
    ensures OrderInv(c, Step(c, p, a), key)
  {
    StepKeepsBase(c, p, a);
    StepKeepsLogs(c, p, a, key);
    StepKeepsPublished(c, p, a, key);
    forall r | r in Step(c, p, a).relays ensures BatchInv(c, Step(c, p, a), Step(c, p, a).relays[r], key) {
      StepKeepsBatch(c, p, a, r, key);
    }
    StepKeepsCursors(c, p, a, key);
    StepKeepsOrder(c, p, a, key);
  }

  // ---------------------------------------------------------------- runs

  ghost predicate EnabledRun<S>(c: Consumer<S>, p: Pipe<S>, actions: seq<Action>)
    decreases |actions|
  {
    actions == [] || (Enabled(c, p, actions[0]) && EnabledRun(c, Step(c, p, actions[0]), actions[1..]))
  }

  /** Along the whole run no event of the key is given up on. */
  ghost predicate LosslessRun<S>(c: Consumer<S>, p: Pipe<S>, actions: seq<Action>, key: Id)
    requires EnabledRun(c, p, actions)
    decreases |actions|
  {
    actions == [] || (!Loses(c, p, actions[0], key) && LosslessRun(c, Step(c, p, actions[0]), actions[1..], key))
  }

  /** And one relay at a time is at work on rows of the key. */
  ghost predicate OrderlyRun<S>(c: Consumer<S>, p: Pipe<S>, actions: seq<Action>, key: Id)
    requires EnabledRun(c, p, actions)
    decreases |actions|
  {
    actions == [] || (Orderly(c, p, actions[0], key) && OrderlyRun(c, Step(c, p, actions[0]), actions[1..], key))
  }

  ghost function Run<S>(c: Consumer<S>, p: Pipe<S>, actions: seq<Action>): Pipe<S>
    requires EnabledRun(c, p, actions)
    decreases |actions|
  {
    if actions == [] then p else Run(c, Step(c, p, actions[0]), actions[1..])
  }

  lemma {:induction false} RunKeepsBase<S>(c: Consumer<S>, p: Pipe<S>, actions: seq<Action>)
    requires BaseInv(c, p) && EnabledRun(c, p, actions)
    ensures BaseInv(c, Run(c, p, actions))
    decreases |actions|
  {
    if actions != [] {
      StepKeepsBase(c, p, actions[0]);
      RunKeepsBase(c, Step(c, p, actions[0]), actions[1..]);
    }
  }

  lemma {:induction false} RunKeepsCursors<S>(c: Consumer<S>, p: Pipe<S>, actions: seq<Action>, key: Id)
    requires CursorsCaughtUp(c, p, key) && EnabledRun(c, p, actions) && LosslessRun(c, p, actions, key)
    ensures CursorsCaughtUp(c, Run(c, p, actions), key)
    decreases |actions|
  {
    if actions != [] {
      StepKeepsCursors(c, p, actions[0], key);
      RunKeepsCursors(c, Step(c, p, actions[0]), actions[1..], key);
    }
  }

  lemma {:induction false} RunKeepsOrder<S>(c: Consumer<S>, p: Pipe<S>, actions: seq<Action>, key: Id)
    requires OrderInv(c, p, key) && EnabledRun(c, p, actions) && OrderlyRun(c, p, actions, key)
    ensures OrderInv(c, Run(c, p, actions), key)
    decreases |actions|
  {
    if actions != [] {
      StepKeepsOrderInv(c, p, actions[0], key);
      RunKeepsOrder(c, Step(c, p, actions[0]), actions[1..], key);
    }
  }

  /** With any number of relays, drops and redeliveries: each committed event is applied at most once, nothing else is
      applied, and the consumer's state of a key is the fold of what was applied to it. */
  lemma EffectsAtMostOnce<S>(c: Consumer<S>, actions: seq<Action>, key: Id)
    requires EnabledRun(c, Start<S>(), actions)
    ensures var p := Run(c, Start<S>(), actions);
            && (forall m, n :: 0 <= m < n < |p.applied| ==> p.applied[m].event != p.applied[n].event)
            && (forall n :: 0 <= n < |p.applied| ==> p.applied[n] in p.rows && p.applied[n].kind in c.kinds)
            && StateOf(p.states, c.initial, key) == Fold(c.handler, c.initial, KeyRows(c.kinds, p.applied, key))
  {
    RunKeepsBase(c, Start<S>(), actions);
    var p := Run(c, Start<S>(), actions);
    assert StateOf(p.states, c.initial, key) == Fold(c.handler, c.initial, KeyRows(c.kinds, p.applied, key));
  }

  // ---------------------------------------------------------------- closed and distinct means prefix

  lemma {:induction false} KeyRowsAre(kinds: set<Id>, rows: seq<Row>, key: Id)
    ensures forall row :: row in KeyRows(kinds, rows, key) <==> row in rows && row.key == key && row.kind in kinds
  {
    if rows != [] {
      var n := |rows| - 1;
      KeyRowsAre(kinds, rows[..n], key);
      assert rows == rows[..n] + [rows[n]];
    }
  }

  ghost predicate Rising(story: seq<Row>) {
    forall j, k :: 0 <= j < k < |story| ==> story[j].seqNo < story[k].seqNo
  }

  /** A key's rows in the outbox stand in strictly rising sequence order. */
  lemma {:induction false} KeyRowsRise(kinds: set<Id>, rows: seq<Row>, key: Id)
    requires OutboxInv(kinds, rows)
    ensures Rising(KeyRows(kinds, rows, key))
  {
    if rows != [] {
      var n := |rows| - 1;
      KeyRowsRise(kinds, rows[..n], key);
      KeyRowsAre(kinds, rows[..n], key);
      var before := KeyRows(kinds, rows[..n], key);
      if rows[n].key == key && rows[n].kind in kinds {
        forall j | 0 <= j < |before| ensures before[j].seqNo < rows[n].seqNo {
          assert before[j] in before;
          var m :| 0 <= m < n && rows[..n][m] == before[j];
          assert rows[m] == before[j];
          assert !Precedes(kinds, rows[n], rows[m]) && rows[m].seqNo != rows[n].seqNo;
        }
        assert KeyRows(kinds, rows, key) == before + [rows[n]];
      } else {
        assert KeyRows(kinds, rows, key) == before;
      }
    }
  }

  /** One key's applied rows, each after all its predecessors, none twice, are a prefix of that key's outbox rows. */
  lemma {:induction false} ClosedIsPrefix(kinds: set<Id>, rows: seq<Row>, list: seq<Row>, key: Id)
    requires OutboxInv(kinds, rows) && Closed(kinds, rows, list, key)
    requires forall n :: 0 <= n < |list| ==> list[n] in rows
    requires forall m, n :: 0 <= m < n < |list| ==> list[m].event != list[n].event
    ensures KeyRows(kinds, list, key) <= KeyRows(kinds, rows, key)
  {
    if list != [] {
      var n := |list| - 1;
      var row := list[n];
      ShorterIsClosed(kinds, rows, list, key);
      ClosedIsPrefix(kinds, rows, list[..n], key);
      if row.key == key && row.kind in kinds {
        NextInStory(kinds, rows, list[..n], row);
      }
    }
  }

  lemma ShorterIsClosed(kinds: set<Id>, rows: seq<Row>, list: seq<Row>, key: Id)
    requires list != [] && Closed(kinds, rows, list, key)
    ensures Closed(kinds, rows, list[..|list| - 1], key)
    ensures list[|list| - 1].key == key ==> PredecessorsIn(kinds, rows, list[|list| - 1], list[..|list| - 1])
  {
    var shorter := list[..|list| - 1];
    forall n | 0 <= n < |shorter| && shorter[n].key == key
      ensures PredecessorsIn(kinds, rows, shorter[n], shorter[..n])
    {
      assert shorter[..n] == list[..n];
    }
    assert list[..|list| - 1] == shorter;
  }

  /** The next applied row of a key is the next row of its story. */
  lemma NextInStory(kinds: set<Id>, rows: seq<Row>, list: seq<Row>, row: Row)
    requires OutboxInv(kinds, rows) && row in rows && row.kind in kinds
    requires KeyRows(kinds, list, row.key) <= KeyRows(kinds, rows, row.key)
    requires PredecessorsIn(kinds, rows, row, list) && row !in list
    ensures KeyRows(kinds, list, row.key) + [row] <= KeyRows(kinds, rows, row.key)
  {
    var story, done := KeyRows(kinds, rows, row.key), KeyRows(kinds, list, row.key);
    KeyRowsAre(kinds, rows, row.key);
    KeyRowsAre(kinds, list, row.key);
    KeyRowsRise(kinds, rows, row.key);
    forall n | 0 <= n < |story| && story[n].seqNo < row.seqNo ensures story[n] in done {
      assert story[n] in story;
      var j :| 0 <= j < |rows| && rows[j] == story[n];
      assert Precedes(kinds, rows[j], row);
    }
    PrefixGrows(story, done, row);
  }

  /** In a strictly rising list, the least element outside a prefix is the one right after it. */
  lemma PrefixGrows(story: seq<Row>, done: seq<Row>, row: Row)
    requires done <= story && row in story && row !in done
    requires Rising(story)
    requires forall n :: 0 <= n < |story| && story[n].seqNo < row.seqNo ==> story[n] in done
    ensures done + [row] <= story
  {
    var m :| 0 <= m < |story| && story[m] == row;
    assert forall n :: 0 <= n < m ==> story[n] in done;
  }

  /** Exactly once, in order: if none of a key's events is given up on and one relay at a time is at work on them, then
      through every crash, ambiguous send and rewind the consumer's state of the key is the fold of the handler over a
      prefix of the key's committed outbox rows in sequence order. */
  lemma EffectsInOrder<S>(c: Consumer<S>, actions: seq<Action>, key: Id)
    requires EnabledRun(c, Start<S>(), actions) && OrderlyRun(c, Start<S>(), actions, key)
    ensures var p := Run(c, Start<S>(), actions);
            var story := KeyRows(c.kinds, p.rows, key);
            && KeyRows(c.kinds, p.applied, key) <= story
            && StateOf(p.states, c.initial, key) == Fold(c.handler, c.initial, KeyRows(c.kinds, p.applied, key))
            && Rising(story)
  {
    RunKeepsOrder(c, Start<S>(), actions, key);
    AppliedIsPrefix(c, Run(c, Start<S>(), actions), key);
  }

  lemma AppliedIsPrefix<S>(c: Consumer<S>, p: Pipe<S>, key: Id)
    requires OrderInv(c, p, key)
    ensures var story := KeyRows(c.kinds, p.rows, key);
            && KeyRows(c.kinds, p.applied, key) <= story
            && StateOf(p.states, c.initial, key) == Fold(c.handler, c.initial, KeyRows(c.kinds, p.applied, key))
            && Rising(story)
  {
    ClosedIsPrefix(c.kinds, p.rows, p.applied, key);
    KeyRowsRise(c.kinds, p.rows, key);
    assert StateOf(p.states, c.initial, key) == Fold(c.handler, c.initial, KeyRows(c.kinds, p.applied, key));
  }

  /** No event is lost, however many relays there are: if none of a key's events is given up on, each of them that lies
      below a committed offset has been applied. */
  lemma NothingBelowAnOffsetIsLost<S>(c: Consumer<S>, actions: seq<Action>, q: Id, j: nat)
    requires EnabledRun(c, Start<S>(), actions)
    requires var p := Run(c, Start<S>(), actions);
             && j < OffsetOf(p.offsets, q) && j < |LogOf(p.logs, q)| && LogOf(p.logs, q)[j].kind in c.kinds
             && LosslessRun(c, Start<S>(), actions, LogOf(p.logs, q)[j].key)
    ensures var p := Run(c, Start<S>(), actions);
            exists n :: 0 <= n < |p.applied| && p.applied[n].event == LogOf(p.logs, q)[j].event
  {
    var p := Run(c, Start<S>(), actions);
    var key := LogOf(p.logs, q)[j].key;
    RunKeepsBase(c, Start<S>(), actions);
    RunKeepsCursors(c, Start<S>(), actions, key);
    assert CaughtUp(c, p, q, p.offsets[q], key);
    assert LogOf(p.logs, q)[j].event in p.processed;
  }
}
