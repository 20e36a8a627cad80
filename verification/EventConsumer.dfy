/** The deduplicating processor and its retry and poll loops as they run, refining the delivery steps. */
module EventConsumer {
  import opened Common
  import opened Delivery
  import OutboxRelay

  datatype Result = Ignored | Handled | Raised

  /** The row has a handler and is not in the dedupe table. */
  predicate NeedsWork<S>(c: Consumer<S>, p: Pipe<S>, row: Row) {
    row.kind in c.kinds && row.event !in p.processed
  }

  predicate AllRaise(raises: seq<bool>) {
    forall k :: 0 <= k < |raises| ==> raises[k]
  }

  /** The database of one consumer. `raises` says whether the handler throws. */
  class EventProcessor<S> {
    const consumer: Consumer<S>
    var processed: set<Id>
    var states: map<Id, S>
    ghost var applied: seq<Row>

    constructor (consumer: Consumer<S>)
      ensures this.consumer == consumer && Shows(Start<S>())
    {
      this.consumer := consumer;
      processed, states, applied := {}, map[], [];
    }

    ghost predicate Shows(p: Pipe<S>)
      reads this
    {
      processed == p.processed && states == p.states && applied == p.applied
    }

    /** process: the id and the handler's writes are committed together or not at all. */
    method Process(ghost p: Pipe<S>, row: Row, raises: bool) returns (result: Result)
      requires Shows(p)
      modifies this
      ensures result == if !NeedsWork(consumer, p, row) then Ignored else if raises then Raised else Handled
      ensures Shows(if result.Raised? then p else Processed(consumer, p, row))
    {
      if row.kind !in consumer.kinds {
        return Ignored;
      }
      if row.event in processed {
        return Ignored;
      }
      var saved := processed;
      processed := processed + {row.event};
      if raises {
        processed := saved;
        return Raised;
      }
      states := states[row.key := consumer.handler(StateOf(states, consumer.initial, row.key), row)];
      applied := applied + [row];
      return Handled;
    }
  }

  /** One pod's consumer of one partition. */
  class ConsumerRunner<S> {
    const processor: EventProcessor<S>
    const maxAttempts: nat
    var position: nat
    var offset: nat

    constructor (processor: EventProcessor<S>, maxAttempts: nat, offset: nat)
      ensures this.processor == processor && this.maxAttempts == maxAttempts && this.offset == position == offset
    {
      this.processor, this.maxAttempts, this.offset, position := processor, maxAttempts, offset, offset;
    }

    /** _handle: retried up to the bound. An event is given up on only if every attempt raised. */
    method Handle(ghost p: Pipe<S>, row: Row, raises: seq<bool>) returns (gaveUp: bool)
      requires processor.Shows(p) && |raises| == maxAttempts
      modifies processor
      ensures gaveUp == (AllRaise(raises) && (NeedsWork(processor.consumer, p, row) || maxAttempts == 0))
      ensures processor.Shows(if gaveUp then p else Processed(processor.consumer, p, row))
    {
      var attempt := 0;
      while attempt < maxAttempts
        invariant 0 <= attempt <= maxAttempts
        invariant AllRaise(raises[..attempt]) && (attempt > 0 ==> NeedsWork(processor.consumer, p, row))
        invariant processor.Shows(p)
      {
        var result := processor.Process(p, row, raises[attempt]);
        if !result.Raised? {
          return false;
        }
        assert raises[..attempt + 1] == raises[..attempt] + [raises[attempt]];
        attempt := attempt + 1;
      }
      assert raises[..maxAttempts] == raises;
      return true;
    }

    /** The next message of a poll that has come as far as `done`. */
    method Next(ghost p: Pipe<S>, ghost pod: Id, ghost done: seq<Row>, ghost gaveUp: seq<bool>, row: Row,
                raises: seq<bool>)
      returns (quit: bool)
      requires |gaveUp| == |done| && |raises| == maxAttempts
      requires processor.Shows(AfterMessages(processor.consumer, p, pod, done, gaveUp))
      modifies this`position, processor
      ensures quit ==> AllRaise(raises)
      ensures processor.Shows(AfterMessages(processor.consumer, p, pod, done + [row], gaveUp + [quit]))
      ensures position == old(position) + 1
    {
      ghost var q := AfterMessages(processor.consumer, p, pod, done, gaveUp);
      quit := Handle(q, row, raises);
      AfterMessagesSnoc(processor.consumer, p, pod, done, gaveUp, row, quit);
      position := position + 1;
    }

    /** One poll: every message in turn, and only then the offset. */
    method Poll(ghost p: Pipe<S>, ghost pod: Id, messages: seq<Row>, raises: seq<seq<bool>>) returns (gaveUp: seq<bool>)
      requires processor.Shows(p)
      requires |raises| == |messages| && forall k :: 0 <= k < |raises| ==> |raises[k]| == maxAttempts
      modifies this, processor
      ensures |gaveUp| == |messages| && forall k :: 0 <= k < |gaveUp| && gaveUp[k] ==> AllRaise(raises[k])
      ensures processor.Shows(AfterMessages(processor.consumer, p, pod, messages, gaveUp))
      ensures position == old(position) + |messages|
      ensures offset == if messages == [] then old(offset) else position
    {
      gaveUp := [];
      var n := 0;
      while n < |messages|
        invariant 0 <= n <= |messages| && |gaveUp| == n
        invariant forall k :: 0 <= k < n && gaveUp[k] ==> AllRaise(raises[k])
        invariant processor.Shows(AfterMessages(processor.consumer, p, pod, messages[..n], gaveUp))
        invariant position == old(position) + n && offset == old(offset)
      {
        var quit := Next(p, pod, messages[..n], gaveUp, messages[n], raises[n]);
        assert messages[..n + 1] == messages[..n] + [messages[n]];
        gaveUp := gaveUp + [quit];
        n := n + 1;
      }
      assert messages[..n] == messages;
      if messages != [] {
        offset := position;
      }
    }
  }

  /** `messages` are the next ones of the pod's partition. */
  predicate Reads<S>(p: Pipe<S>, pod: Id, messages: seq<Row>) {
    && pod in p.cursors
    && var log := LogOf(p.logs, p.cursors[pod].partition);
       var pos := p.cursors[pod].pos;
       pos + |messages| <= |log| && log[pos..pos + |messages|] == messages
  }

  function MoveOn<S>(p: Pipe<S>, pod: Id): Pipe<S> {
    if pod in p.cursors then p.(cursors := p.cursors[pod := Advanced(p.cursors[pod])]) else p
  }

  function AfterMessages<S>(c: Consumer<S>, p: Pipe<S>, pod: Id, messages: seq<Row>, gaveUp: seq<bool>): Pipe<S>
    requires |gaveUp| == |messages|
  {
    if messages == [] then p
    else
      var n := |messages| - 1;
      var q := AfterMessages(c, p, pod, messages[..n], gaveUp[..n]);
      MoveOn(if gaveUp[n] then q else Processed(c, q, messages[n]), pod)
  }

  lemma AfterMessagesSnoc<S>(c: Consumer<S>, p: Pipe<S>, pod: Id, messages: seq<Row>, gaveUp: seq<bool>, row: Row,
                             quit: bool)
    requires |gaveUp| == |messages|
    ensures AfterMessages(c, p, pod, messages + [row], gaveUp + [quit])
            == (var q := AfterMessages(c, p, pod, messages, gaveUp);
                MoveOn(if quit then q else Processed(c, q, row), pod))
  {
    assert (messages + [row])[..|messages|] == messages && (gaveUp + [quit])[..|messages|] == gaveUp;
  }

  function Message(pod: Id, quit: bool): Action {
    if quit then GiveUp(pod) else Deliver(pod)
  }

  function Messages(pod: Id, gaveUp: seq<bool>): seq<Action> {
    if gaveUp == [] then [] else Messages(pod, gaveUp[..|gaveUp| - 1]) + [Message(pod, gaveUp[|gaveUp| - 1])]
  }

  /** The next message is handled or given up on by one step of the machine. */
  lemma NextMessage<S>(c: Consumer<S>, q: Pipe<S>, pod: Id, row: Row, quit: bool)
    requires pod in q.cursors && q.cursors[pod].pos < |LogOf(q.logs, q.cursors[pod].partition)|
    requires LogOf(q.logs, q.cursors[pod].partition)[q.cursors[pod].pos] == row
    ensures var after := MoveOn(if quit then q else Processed(c, q, row), pod);
            && Enabled(c, q, Message(pod, quit)) && Step(c, q, Message(pod, quit)) == after
            && (forall key :: !quit || row.key != key ==> Orderly(c, q, Message(pod, quit), key))
            && pod in after.cursors && after.cursors[pod] == Advanced(q.cursors[pod]) && after.logs == q.logs
  {
  }

  lemma {:induction false} MessagesAreARun<S>(c: Consumer<S>, p: Pipe<S>, pod: Id, messages: seq<Row>,
                                              gaveUp: seq<bool>)
    requires Reads(p, pod, messages) && |gaveUp| == |messages|
    ensures var q := AfterMessages(c, p, pod, messages, gaveUp);
            && EnabledRun(c, p, Messages(pod, gaveUp)) && Run(c, p, Messages(pod, gaveUp)) == q
            && pod in q.cursors && q.cursors[pod] == Cursor(p.cursors[pod].partition, p.cursors[pod].pos + |messages|)
            && q.logs == p.logs
  {
    if messages != [] {
      var n := |messages| - 1;
      ShorterRead(p, pod, messages);
      MessagesAreARun(c, p, pod, messages[..n], gaveUp[..n]);
      NextMessage(c, AfterMessages(c, p, pod, messages[..n], gaveUp[..n]), pod, messages[n], gaveUp[n]);
      OutboxRelay.RunSnoc(c, p, Messages(pod, gaveUp[..n]), Message(pod, gaveUp[n]));
    }
  }

  lemma ShorterRead<S>(p: Pipe<S>, pod: Id, messages: seq<Row>)
    requires Reads(p, pod, messages) && messages != []
    ensures Reads(p, pod, messages[..|messages| - 1])
    ensures LogOf(p.logs, p.cursors[pod].partition)[p.cursors[pod].pos + |messages| - 1] == messages[|messages| - 1]
  {
    var n, log, pos := |messages| - 1, LogOf(p.logs, p.cursors[pod].partition), p.cursors[pod].pos;
    assert log[pos..pos + n] == messages[..n];
    assert log[pos + n] == log[pos..pos + |messages|][n];
  }

  /** No message of the key was given up on. */
  predicate KeepsKey(messages: seq<Row>, gaveUp: seq<bool>, key: Id)
    requires |gaveUp| == |messages|
  {
    forall k :: 0 <= k < |messages| && messages[k].key == key ==> !gaveUp[k]
  }

  lemma {:induction false} MessagesAreOrderly<S>(c: Consumer<S>, p: Pipe<S>, pod: Id, messages: seq<Row>,
                                                 gaveUp: seq<bool>,
                                                 key: Id)
    requires Reads(p, pod, messages) && |gaveUp| == |messages| && KeepsKey(messages, gaveUp, key)
    ensures EnabledRun(c, p, Messages(pod, gaveUp)) && OrderlyRun(c, p, Messages(pod, gaveUp), key)
  {
    MessagesAreARun(c, p, pod, messages, gaveUp);
    if messages != [] {
      var n := |messages| - 1;
      ShorterRead(p, pod, messages);
      MessagesAreARun(c, p, pod, messages[..n], gaveUp[..n]);
      MessagesAreOrderly(c, p, pod, messages[..n], gaveUp[..n], key);
      NextMessage(c, AfterMessages(c, p, pod, messages[..n], gaveUp[..n]), pod, messages[n], gaveUp[n]);
      OutboxRelay.OrderlySnoc(c, p, Messages(pod, gaveUp[..n]), Message(pod, gaveUp[n]), key);
    }
  }

  /** One poll is a run of the delivery machine, and an orderly one for each key none of whose messages was given up
      on. */
  lemma PollIsARun<S>(c: Consumer<S>, p: Pipe<S>, pod: Id, messages: seq<Row>, gaveUp: seq<bool>)
    requires Reads(p, pod, messages) && |gaveUp| == |messages|
    ensures var run := Messages(pod, gaveUp) + [CommitOffset(pod)];
            var q := AfterMessages(c, p, pod, messages, gaveUp);
            && EnabledRun(c, p, run)
            && Run(c, p, run) == q.(offsets := q.offsets[p.cursors[pod].partition := p.cursors[pod].pos + |messages|])
            && (forall key :: KeepsKey(messages, gaveUp, key) ==> OrderlyRun(c, p, run, key))
  {
    MessagesAreARun(c, p, pod, messages, gaveUp);
    OutboxRelay.RunSnoc(c, p, Messages(pod, gaveUp), CommitOffset(pod));
    forall key | KeepsKey(messages, gaveUp, key)
      ensures OrderlyRun(c, p, Messages(pod, gaveUp) + [CommitOffset(pod)], key)
    {
      MessagesAreOrderly(c, p, pod, messages, gaveUp, key);
      OutboxRelay.OrderlySnoc(c, p, Messages(pod, gaveUp), CommitOffset(pod), key);
    }
  }
}
