/** The relay's batch loop as it runs, refining the delivery steps. */
module OutboxRelay {
  import opened Common
  import opened Delivery

  /** What came of one send: acknowledged, or an exception after which the broker may or may not hold the message. */
  datatype Send = Acknowledged | Raised(arrived: bool)

  /** One failure more for this event, starting from none, and the other counts as before. */
  predicate FailureCounted(before: map<Id, nat>, after: map<Id, nat>, failed: Option<Id>) {
    match failed
    case None => after == before
    case Some(event) =>
      && event in after && after[event] == (if event in before then before[event] + 1 else 1)
      && after - {event} == before - {event}
  }

  /** How many sends went well before the first that did not. */
  function Leading(sends: seq<Send>): (n: nat)
    ensures n <= |sends|
    ensures forall m :: 0 <= m < n ==> sends[m] == Acknowledged
    ensures n < |sends| ==> sends[n].Raised?
  {
    if sends == [] || sends[0].Raised? then 0 else 1 + Leading(sends[1..])
  }

  /** The rows the broker holds more of after the batch. */
  function Arrived(batch: seq<Row>, sends: seq<Send>): seq<Row>
    requires |batch| == |sends|
  {
    var n := Leading(sends);
    if n < |sends| && sends[n].arrived then batch[..n + 1] else batch[..n]
  }

  function AppendedAll(logs: map<Id, seq<Row>>, rows: seq<Row>): map<Id, seq<Row>> {
    if rows == [] then logs else Appended(AppendedAll(logs, rows[..|rows| - 1]), rows[|rows| - 1])
  }

  lemma AppendedAllSnoc(logs: map<Id, seq<Row>>, batch: seq<Row>, n: nat)
    requires n < |batch|
    ensures AppendedAll(logs, batch[..n + 1]) == Appended(AppendedAll(logs, batch[..n]), batch[n])
  {
    assert batch[..n + 1][..n] == batch[..n];
  }

  /** The first n rows of a batch. */
  function Marked(batch: seq<Row>, n: nat): set<Row>
    requires n <= |batch|
  {
    set m | 0 <= m < n :: batch[m]
  }

  lemma MarkedSnoc(batch: seq<Row>, n: nat)
    requires n < |batch|
    ensures Marked(batch, n + 1) == Marked(batch, n) + {batch[n]}
  {
  }

  lemma {:induction false} LeadingIs(sends: seq<Send>, n: nat)
    requires n <= |sends| && forall m :: 0 <= m < n ==> sends[m] == Acknowledged
    requires n < |sends| ==> sends[n].Raised?
    ensures Leading(sends) == n
  {
    if n > 0 {
      LeadingIs(sends[1..], n - 1);
    }
  }

  /** One more step at the end of a run. */
  lemma {:induction false} RunSnoc<S>(c: Consumer<S>, p: Pipe<S>, run: seq<Action>, a: Action)
    requires EnabledRun(c, p, run) && Enabled(c, Run(c, p, run), a)
    ensures EnabledRun(c, p, run + [a]) && Run(c, p, run + [a]) == Step(c, Run(c, p, run), a)
    decreases |run|
  {
    if run == [] {
      var next := Step(c, p, a);
      assert (run + [a])[0] == a && (run + [a])[1..] == [];
      assert EnabledRun(c, next, []) && Run(c, next, []) == next;
    } else {
      RunSnoc(c, Step(c, p, run[0]), run[1..], a);
      assert (run + [a])[1..] == run[1..] + [a];
    }
  }

  lemma {:induction false} OrderlySnoc<S>(c: Consumer<S>, p: Pipe<S>, run: seq<Action>, a: Action, key: Id)
    requires EnabledRun(c, p, run) && Enabled(c, Run(c, p, run), a)
    requires OrderlyRun(c, p, run, key) && Orderly(c, Run(c, p, run), a, key)
    ensures EnabledRun(c, p, run + [a]) && OrderlyRun(c, p, run + [a], key)
    decreases |run|
  {
    RunSnoc(c, p, run, a);
    if run == [] {
      var next := Step(c, p, a);
      assert (run + [a])[0] == a && (run + [a])[1..] == [];
      assert OrderlyRun(c, next, [], key);
    } else {
      OrderlySnoc(c, Step(c, p, run[0]), run[1..], a, key);
      assert (run + [a])[1..] == run[1..] + [a];
    }
  }

  // ---------------------------------------------------------------- the query

  function InsertBySeq(sorted: seq<Row>, row: Row): (r: seq<Row>)
    ensures forall x :: x in r <==> x in sorted || x == row
    ensures Rising(sorted) && (forall k :: 0 <= k < |sorted| ==> sorted[k].seqNo != row.seqNo) ==> Rising(r)
  {
    if sorted == [] || sorted[|sorted| - 1].seqNo < row.seqNo then sorted + [row]
    else
      var n := |sorted| - 1;
      var before := InsertBySeq(sorted[..n], row);
      assert sorted == sorted[..n] + [sorted[n]];
      assert forall k :: 0 <= k < |before| ==> before[k] in before;
      assert Rising(sorted) ==> forall x :: x in sorted[..n] ==> x.seqNo < sorted[n].seqNo;
      before + [sorted[n]]
  }

  /** The pending rows by seq, skipping what other relays have locked. */
  function Pending(rows: seq<Row>, published: set<Row>, locked: set<Row>): (r: seq<Row>)
    ensures forall x :: x in r <==> x in rows && x !in published && x !in locked
  {
    if rows == [] then []
    else
      var n := |rows| - 1;
      assert rows == rows[..n] + [rows[n]];
      var r := Pending(rows[..n], published, locked);
      if rows[n] in published || rows[n] in locked then r else InsertBySeq(r, rows[n])
  }

  function Query(rows: seq<Row>, published: set<Row>, locked: set<Row>, limit: nat): seq<Row> {
    var pending := Pending(rows, published, locked);
    if limit < |pending| then pending[..limit] else pending
  }

  lemma {:induction false} PendingRises(rows: seq<Row>, published: set<Row>, locked: set<Row>)
    requires DistinctRows(rows)
    ensures Rising(Pending(rows, published, locked))
  {
    if rows != [] {
      var n := |rows| - 1;
      PendingRises(rows[..n], published, locked);
      var r := Pending(rows[..n], published, locked);
      forall k | 0 <= k < |r| ensures r[k].seqNo != rows[n].seqNo {
        assert r[k] in r;
      }
    }
  }

  function LockedByOthers<S>(p: Pipe<S>, relay: Id): set<Row> {
    set row | row in p.rows && LockedElsewhere(p.relays, relay, row)
  }

  /** What the query returns is a batch the delivery machine allows. */
  lemma QueryIsBatch<S>(p: Pipe<S>, relay: Id, limit: nat)
    requires DistinctRows(p.rows)
    ensures IsBatch(p, relay, Query(p.rows, p.published, LockedByOthers(p, relay), limit))
  {
    var locked := LockedByOthers(p, relay);
    var pending, batch := Pending(p.rows, p.published, locked), Query(p.rows, p.published, locked, limit);
    PendingRises(p.rows, p.published, locked);
    forall m | 0 <= m < |batch| ensures batch[m] in p.rows && IsPending(p, relay, batch[m]) {
      assert batch[m] == pending[m] && pending[m] in pending;
    }
    forall m, row | 0 <= m < |batch| && row in p.rows && IsPending(p, relay, row) && row.seqNo < batch[m].seqNo
      ensures row in batch[..m]
    {
      assert row in pending;
      var k :| 0 <= k < |pending| && pending[k] == row;
      assert k < m && batch[k] == row;
    }
  }

  // ---------------------------------------------------------------- the backlog

  /** What is still to be published, apart from what other relays have locked. */
  function Backlog(rows: seq<Row>, published: set<Row>, locked: set<Row>): set<Row> {
    set row | row in rows && row !in published && row !in locked
  }

  function AtMost(limit: nat, n: nat): nat { if limit < n then limit else n }

  function Range(rows: seq<Row>): set<Row> { set row | row in rows }

  lemma {:induction false} RisingIsDistinct(story: seq<Row>)
    requires Rising(story)
    ensures |Range(story)| == |story|
  {
    if story != [] {
      var n := |story| - 1;
      RisingIsDistinct(story[..n]);
      assert story == story[..n] + [story[n]];
      assert Range(story) == Range(story[..n]) + {story[n]};
      assert story[n] !in story[..n];
    }
  }

  lemma QueryCounts(rows: seq<Row>, published: set<Row>, locked: set<Row>, limit: nat)
    requires DistinctRows(rows)
    ensures var batch, backlog := Query(rows, published, locked, limit), Backlog(rows, published, locked);
            && |batch| == |Range(batch)| == AtMost(limit, |backlog|) && Rising(batch) && Range(batch) <= backlog
  {
    var pending, batch := Pending(rows, published, locked), Query(rows, published, locked, limit);
    PendingRises(rows, published, locked);
    RisingIsDistinct(pending);
    RisingIsDistinct(batch);
    assert Range(pending) == Backlog(rows, published, locked);
    forall m | 0 <= m < |batch| ensures batch[m] in pending {
      assert batch[m] == pending[m];
    }
  }

  /** The batch is the first part of the backlog in sequence order, and as much of it as the limit allows. */
  lemma QueryTakes(rows: seq<Row>, published: set<Row>, locked: set<Row>, limit: nat)
    requires DistinctRows(rows)
    ensures var batch, backlog := Query(rows, published, locked, limit), Backlog(rows, published, locked);
            && |batch| == |Range(batch)| == AtMost(limit, |backlog|) && Rising(batch) && Range(batch) <= backlog
            && (|batch| < limit ==> Range(batch) == backlog)
            && (forall first, later ::
                  first in batch && later in backlog && later !in batch ==> first.seqNo < later.seqNo)
  {
    QueryCounts(rows, published, locked, limit);
    var pending, batch := Pending(rows, published, locked), Query(rows, published, locked, limit);
    assert batch <= pending && (|batch| < limit ==> batch == pending);
    PendingRises(rows, published, locked);
    forall first, later | first in batch && later in pending && later !in batch ensures first.seqNo < later.seqNo {
      FirstComesFirst(pending, batch, first, later);
    }
  }

  lemma FirstComesFirst(story: seq<Row>, part: seq<Row>, first: Row, later: Row)
    requires Rising(story) && part <= story && first in part && later in story && later !in part
    ensures first.seqNo < later.seqNo
  {
    var m :| 0 <= m < |part| && part[m] == first;
    var k :| 0 <= k < |story| && story[k] == later;
    assert forall j :: 0 <= j < |part| ==> story[j] == part[j] && part[j] in part;
  }

  /** A call whose sends all go well takes the batch off the backlog, so it publishes something if there was anything to
      publish, and everything if that was no more than the limit. */
  lemma BacklogShrinks(rows: seq<Row>, published: set<Row>, locked: set<Row>, limit: nat)
    requires DistinctRows(rows)
    ensures var batch, backlog := Query(rows, published, locked, limit), Backlog(rows, published, locked);
            var left := Backlog(rows, published + Range(batch), locked);
            && left <= backlog && |left| == |backlog| - AtMost(limit, |backlog|)
  {
    var batch, backlog := Query(rows, published, locked, limit), Backlog(rows, published, locked);
    QueryCounts(rows, published, locked, limit);
    assert Backlog(rows, published + Range(batch), locked) == backlog - Range(batch);
    assert backlog == Range(batch) + (backlog - Range(batch));
  }

  /** How much a lone relay has left to publish. */
  function Left(rows: seq<Row>, published: set<Row>): nat { |Backlog(rows, published, {})| }

  /** What one such call of a lone relay leaves published. */
  function Called(rows: seq<Row>, published: set<Row>, limit: nat): set<Row> {
    published + Range(Query(rows, published, {}, limit))
  }

  lemma CallShrinks(rows: seq<Row>, published: set<Row>, limit: nat)
    requires DistinctRows(rows)
    ensures Left(rows, Called(rows, published, limit)) ==
            Left(rows, published) - AtMost(limit, Left(rows, published))
  {
    BacklogShrinks(rows, published, {}, limit);
  }

  /** What is published before and after each of several such calls. */
  ghost predicate AreCalls(rows: seq<Row>, published: seq<set<Row>>, limit: nat) {
    published != [] && forall k :: 0 <= k < |published| - 1 ==> published[k + 1] == Called(rows, published[k], limit)
  }

  /** What is left of a backlog after n calls that each take as much as the limit allows. */
  function Remaining(left: nat, limit: nat, n: nat): nat
    decreases n
  {
    if n == 0 then left else Remaining(left - AtMost(limit, left), limit, n - 1)
  }

  lemma {:induction false} CallsShrink(rows: seq<Row>, published: seq<set<Row>>, limit: nat)
    requires DistinctRows(rows) && AreCalls(rows, published, limit)
    ensures var n := |published| - 1;
            Left(rows, published[n]) == Remaining(Left(rows, published[0]), limit, n)
    decreases |published|
  {
    if |published| > 1 {
      CallShrinks(rows, published[0], limit);
      CallsShrink(rows, published[1..], limit);
    }
  }

  lemma {:induction false} RemainingIs(left: nat, limit: nat, n: nat)
    ensures n * limit >= left ==> Remaining(left, limit, n) == 0
    ensures n * limit < left ==> Remaining(left, limit, n) == left - n * limit
    decreases n
  {
    if n > 0 {
      RemainingIs(left - AtMost(limit, left), limit, n - 1);
      assert n * limit == (n - 1) * limit + limit;
      assert (n - 1) * limit >= 0;
    }
  }

  /** Every committed row gets out: once the calls add up to the backlog, nothing is left of it. */
  lemma BacklogGetsOut(rows: seq<Row>, published: seq<set<Row>>, limit: nat)
    requires DistinctRows(rows) && AreCalls(rows, published, limit)
    requires (|published| - 1) * limit >= Left(rows, published[0])
    ensures forall row :: row in rows ==> row in published[|published| - 1]
  {
    var n := |published| - 1;
    CallsShrink(rows, published, limit);
    RemainingIs(Left(rows, published[0]), limit, n);
    var left := Backlog(rows, published[n], {});
    assert left == {};
    forall row | row in rows ensures row in published[n] {
      assert row !in left;
    }
  }

  // ---------------------------------------------------------------- what reaches the broker

  function OnPartition(rows: seq<Row>, q: Id): seq<Row> {
    if rows == [] then []
    else OnPartition(rows[..|rows| - 1], q) + (if rows[|rows| - 1].partition == q then [rows[|rows| - 1]] else [])
  }

  lemma {:induction false} AppendedAllIs(logs: map<Id, seq<Row>>, rows: seq<Row>, q: Id)
    ensures LogOf(AppendedAll(logs, rows), q) == LogOf(logs, q) + OnPartition(rows, q)
  {
    if rows != [] {
      AppendedAllIs(logs, rows[..|rows| - 1], q);
    }
  }

  /** After a call each partition's log has grown, in batch order, by its rows among those whose sends went well, and by
      the first that did not if the broker took it all the same; nothing that comes later in the batch was sent. */
  lemma BrokerGains(logs: map<Id, seq<Row>>, batch: seq<Row>, sends: seq<Send>, n: nat, q: Id)
    requires |sends| == |batch| && n <= |sends| && (forall m :: 0 <= m < n ==> sends[m] == Acknowledged)
    requires n < |sends| ==> sends[n].Raised?
    ensures LogOf(AppendedAll(logs, Arrived(batch, sends)), q) ==
            LogOf(logs, q) + OnPartition(batch[..n], q)
            + (if n < |batch| && sends[n] == Raised(true) && batch[n].partition == q then [batch[n]] else [])
  {
    LeadingIs(sends, n);
    AppendedAllIs(logs, Arrived(batch, sends), q);
    if n < |sends| && sends[n].arrived {
      assert batch[..n + 1][..n] == batch[..n];
    }
  }

  // ---------------------------------------------------------------- the loop

  /** A batch as delivery steps, up to the n-th send. */
  function Sending(relay: Id, batch: seq<Row>, n: nat): seq<Action> {
    if n == 0 then [RelayStart(relay, batch)] else Sending(relay, batch, n - 1) + [RelaySent(relay)]
  }

  function BatchRun(relay: Id, batch: seq<Row>, sends: seq<Send>): seq<Action>
    requires |batch| == |sends|
  {
    var n := Leading(sends);
    Sending(relay, batch, n)
    + (if n < |sends| then [RelaySendFailed(relay, sends[n].arrived), RelayCommit(relay)] else [RelayCommit(relay)])
  }

  /** What one call leaves: the sends that arrived are in the broker, the acknowledged ones are marked. */
  function AfterBatch<S>(p: Pipe<S>, batch: seq<Row>, sends: seq<Send>): Pipe<S>
    requires |batch| == |sends|
  {
    p.(logs := AppendedAll(p.logs, Arrived(batch, sends)),
       published := p.published + Marked(batch, Leading(sends)))
  }

  /** The relay's transaction after n sends went well. */
  function AfterSends<S>(p: Pipe<S>, relay: Id, batch: seq<Row>, n: nat): Pipe<S>
    requires n <= |batch|
  {
    p.(logs := AppendedAll(p.logs, batch[..n]), relays := p.relays[relay := Batch(batch, n, false)])
  }

  /** `run` leads from p to q, in an orderly way for the key if no relay is at work on it in p. */
  ghost predicate Leads<S>(c: Consumer<S>, p: Pipe<S>, run: seq<Action>, q: Pipe<S>, key: Id) {
    EnabledRun(c, p, run) && Run(c, p, run) == q && (NoRelayOn(p, key) ==> OrderlyRun(c, p, run, key))
  }

  lemma LeadsOn<S>(c: Consumer<S>, p: Pipe<S>, run: seq<Action>, q: Pipe<S>, a: Action, key: Id)
    requires Leads(c, p, run, q, key) && Enabled(c, q, a)
    requires NoRelayOn(p, key) ==> Orderly(c, q, a, key)
    ensures Leads(c, p, run + [a], Step(c, q, a), key)
  {
    RunSnoc(c, p, run, a);
    if NoRelayOn(p, key) {
      OrderlySnoc(c, p, run, a, key);
    }
  }

  lemma StartStep<S>(c: Consumer<S>, p: Pipe<S>, relay: Id, batch: seq<Row>, key: Id)
    requires relay !in p.relays && IsBatch(p, relay, batch)
    ensures Leads(c, p, [RelayStart(relay, batch)], AfterSends(p, relay, batch, 0), key)
  {
    var a := RelayStart(relay, batch);
    assert Leads(c, p, [], p, key);
    assert Enabled(c, p, a);
    LeadsOn(c, p, [], p, a, key);
    assert [] + [a] == [a];
    assert batch[..0] == [];
  }

  lemma SendStep<S>(c: Consumer<S>, p: Pipe<S>, relay: Id, batch: seq<Row>, n: nat)
    requires n < |batch|
    ensures var q := AfterSends(p, relay, batch, n);
            Enabled(c, q, RelaySent(relay)) && Step(c, q, RelaySent(relay)) == AfterSends(p, relay, batch, n + 1)
  {
    assert batch[..n + 1][..n] == batch[..n];
    var b := Batch(batch, n, false);
    assert p.relays[relay := b][relay := b.(sent := n + 1)] == p.relays[relay := b.(sent := n + 1)];
  }

  lemma {:induction false} SendingRuns<S>(c: Consumer<S>, p: Pipe<S>, relay: Id, batch: seq<Row>, n: nat, key: Id)
    requires relay !in p.relays && IsBatch(p, relay, batch) && n <= |batch|
    ensures Leads(c, p, Sending(relay, batch, n), AfterSends(p, relay, batch, n), key)
  {
    if n == 0 {
      StartStep(c, p, relay, batch, key);
    } else {
      SendingRuns(c, p, relay, batch, n - 1, key);
      SendStep(c, p, relay, batch, n - 1);
      LeadsOn(c, p, Sending(relay, batch, n - 1), AfterSends(p, relay, batch, n - 1), RelaySent(relay), key);
    }
  }

  lemma FailStep<S>(c: Consumer<S>, p: Pipe<S>, relay: Id, batch: seq<Row>, n: nat, arrived: bool)
    requires n < |batch|
    ensures var q := AfterSends(p, relay, batch, n);
            && Enabled(c, q, RelaySendFailed(relay, arrived))
            && Step(c, q, RelaySendFailed(relay, arrived))
               == p.(logs := AppendedAll(p.logs, if arrived then batch[..n + 1] else batch[..n]),
                     relays := p.relays[relay := Batch(batch, n, true)])
  {
    assert batch[..n + 1][..n] == batch[..n];
    var b := Batch(batch, n, false);
    assert p.relays[relay := b][relay := b.(stopped := true)] == p.relays[relay := b.(stopped := true)];
  }

  lemma CommitStep<S>(c: Consumer<S>, p: Pipe<S>, relay: Id, batch: seq<Row>, n: nat, stopped: bool,
                      logs: map<Id, seq<Row>>)
    requires relay !in p.relays && n <= |batch| && (stopped || n == |batch|)
    ensures var q := p.(logs := logs, relays := p.relays[relay := Batch(batch, n, stopped)]);
            && Enabled(c, q, RelayCommit(relay))
            && Step(c, q, RelayCommit(relay)) == p.(logs := logs, published := p.published + Marked(batch, n))
  {
    assert p.relays[relay := Batch(batch, n, stopped)] - {relay} == p.relays;
    assert Marked(batch, n) == (set m | 0 <= m < n && m < |batch| :: batch[m]);
  }

  lemma BatchIsARelayRun<S>(c: Consumer<S>, p: Pipe<S>, relay: Id, batch: seq<Row>, sends: seq<Send>, key: Id)
    requires relay !in p.relays && IsBatch(p, relay, batch) && |sends| == |batch|
    ensures Leads(c, p, BatchRun(relay, batch, sends), AfterBatch(p, batch, sends), key)
  {
    var n := Leading(sends);
    var run, q := Sending(relay, batch, n), AfterSends(p, relay, batch, n);
    SendingRuns(c, p, relay, batch, n, key);
    if n < |sends| {
      var fail := RelaySendFailed(relay, sends[n].arrived);
      FailStep(c, p, relay, batch, n, sends[n].arrived);
      LeadsOn(c, p, run, q, fail, key);
      CommitStep(c, p, relay, batch, n, true, AppendedAll(p.logs, Arrived(batch, sends)));
      LeadsOn(c, p, run + [fail], Step(c, q, fail), RelayCommit(relay), key);
      assert run + [fail] + [RelayCommit(relay)] == BatchRun(relay, batch, sends);
    } else {
      CommitStep(c, p, relay, batch, n, false, q.logs);
      LeadsOn(c, p, run, q, RelayCommit(relay), key);
    }
  }

  /** One call of run_once is a run of the delivery machine, and an orderly one for each key that no other relay is at
      work on. */
  lemma RunOnceIsARelayRun<S>(c: Consumer<S>, p: Pipe<S>, relay: Id, limit: nat, sends: seq<Send>, key: Id)
    requires OutboxInv(c.kinds, p.rows) && relay !in p.relays
    requires |sends| == |Query(p.rows, p.published, LockedByOthers(p, relay), limit)|
    ensures var batch := Query(p.rows, p.published, LockedByOthers(p, relay), limit);
            Leads(c, p, BatchRun(relay, batch, sends), AfterBatch(p, batch, sends), key)
  {
    QueryIsBatch(p, relay, limit);
    BatchIsARelayRun(c, p, relay, Query(p.rows, p.published, LockedByOthers(p, relay), limit), sends, key);
  }

  /** The outbox marks and failure counts, and the broker the relay publishes to. */
  class Relay {
    var published: set<Row>
    var attempts: map<Id, nat>
    var logs: map<Id, seq<Row>>

    constructor ()
      ensures published == {} && attempts == map[] && logs == map[]
    {
      published, attempts, logs := {}, map[], map[];
    }

    /** run_once over the committed outbox, of which other relays have locked some rows. The marks become visible
        together at the commit, the sends at once. */
    method RunOnce(rows: seq<Row>, locked: set<Row>, limit: nat, sends: seq<Send>) returns (count: nat)
      requires |sends| == |Query(rows, published, locked, limit)|
      modifies this
      ensures var batch := Query(rows, old(published), locked, limit);
              && count == Leading(sends) <= |batch|
              && published == old(published) + Marked(batch, count)
              && logs == AppendedAll(old(logs), Arrived(batch, sends))
              && FailureCounted(old(attempts), attempts, if count < |batch| then Some(batch[count].event) else None)
      ensures DistinctRows(rows) && (forall k :: 0 <= k < |sends| ==> sends[k] == Acknowledged) ==>
                var backlog := |Backlog(rows, old(published), locked)|;
                count == AtMost(limit, backlog) && |Backlog(rows, published, locked)| == backlog - count
    {
      var batch := Query(rows, published, locked, limit);
      count := SendAll(batch, sends);
      if DistinctRows(rows) {
        QueryCounts(rows, old(published), locked, limit);
        BacklogShrinks(rows, old(published), locked, limit);
        assert count == |batch| ==> Marked(batch, count) == Range(batch);
      }
    }

    /** The loop of run_once. */
    method SendAll(batch: seq<Row>, sends: seq<Send>) returns (count: nat)
      requires |sends| == |batch|
      modifies this
      ensures count == Leading(sends)
      ensures count <= |batch| && published == old(published) + Marked(batch, count)
      ensures logs == AppendedAll(old(logs), Arrived(batch, sends))
      ensures FailureCounted(old(attempts), attempts, if count < |batch| then Some(batch[count].event) else None)
    {
      var marked: set<Row> := {};
      count := 0;
      while count < |batch|
        invariant 0 <= count <= |batch|
        invariant published == old(published) && attempts == old(attempts)
        invariant marked == Marked(batch, count)
        invariant forall m :: 0 <= m < count ==> sends[m] == Acknowledged
        invariant logs == AppendedAll(old(logs), batch[..count])
      {
        var row := batch[count];
        AppendedAllSnoc(old(logs), batch, count);
        MarkedSnoc(batch, count);
        if sends[count].Raised? {
          LeadingIs(sends, count);
          if sends[count].arrived {
            logs := Appended(logs, row);
          }
          attempts := attempts[row.event := (if row.event in attempts then attempts[row.event] else 0) + 1];
          break;
        }
        logs := Appended(logs, row);
        marked := marked + {row};
        count := count + 1;
      }
      if count == |batch| {
        LeadingIs(sends, count);
      }
      published := published + marked;
    }
  }
}
