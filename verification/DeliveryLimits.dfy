/** Which relays and which give-ups keep a key's events in order: the hypotheses of the in-order theorem are exact. */
module DeliveryLimits {
  import opened Common
  import opened Delivery
  import OutboxRelay

  // A policy fixes the relays that may run and whether consumers may give up on events.

  ghost predicate Allowed(a: Action, relays: set<Id>, drops: bool) {
    (a.GiveUp? ==> drops) && (a.RelayStart? ==> a.relay in relays)
  }

  ghost predicate AllowedRun(run: seq<Action>, relays: set<Id>, drops: bool) {
    forall k :: 0 <= k < |run| ==> Allowed(run[k], relays, drops)
  }

  ghost predicate Reaches<S>(c: Consumer<S>, run: seq<Action>, p: Pipe<S>, relays: set<Id>, drops: bool) {
    EnabledRun(c, Start<S>(), run) && Run(c, Start<S>(), run) == p && AllowedRun(run, relays, drops)
  }

  ghost predicate Reachable<S>(c: Consumer<S>, p: Pipe<S>, relays: set<Id>, drops: bool) {
    exists run :: Reaches(c, run, p, relays, drops)
  }

  /** What was applied for each key is a first part of what was committed for it. */
  ghost predicate InOrder<S>(c: Consumer<S>, p: Pipe<S>) {
    forall key {:trigger KeyRows(c.kinds, p.rows, key)} ::
      KeyRows(c.kinds, p.applied, key) <= KeyRows(c.kinds, p.rows, key)
  }

  ghost predicate AlwaysInOrder<S(!new)>(c: Consumer<S>, relays: set<Id>, drops: bool) {
    forall p :: Reachable(c, p, relays, drops) ==> InOrder(c, p)
  }

  lemma Then<S>(c: Consumer<S>, p: Pipe<S>, a: Action, relays: set<Id>, drops: bool)
    requires Reachable(c, p, relays, drops) && Enabled(c, p, a) && Allowed(a, relays, drops)
    ensures Reachable(c, Step(c, p, a), relays, drops)
  {
    var run :| Reaches(c, run, p, relays, drops);
    OutboxRelay.RunSnoc(c, Start<S>(), run, a);
    assert Reaches(c, run + [a], Step(c, p, a), relays, drops);
  }

  // ---------------------------------------------------------------- out of order

  function First(kind: Id): Row { Row(1, 11, 5, 0, kind) }

  function Second(kind: Id): Row { Row(2, 12, 5, 0, kind) }

  /** Both events committed, none applied yet. */
  function Sent<S>(kind: Id, relays: map<Id, Batch>, log: seq<Row>): Pipe<S> {
    Pipe([First(kind), Second(kind)], {}, relays, if log == [] then map[] else map[0 := log], map[], map[], {}, [],
         map[])
  }

  lemma BothCommitted<S>(c: Consumer<S>, kind: Id, relays: set<Id>, drops: bool)
    ensures Reachable(c, Sent<S>(kind, map[], []), relays, drops)
  {
    var start, p, q := Start<S>(), Start<S>().(rows := [First(kind)]), Sent<S>(kind, map[], []);
    assert Reaches(c, [], start, relays, drops);
    Then(c, start, Produce(First(kind)), relays, drops);
    assert Step(c, start, Produce(First(kind))) == p;
    Then(c, p, Produce(Second(kind)), relays, drops);
    assert Step(c, p, Produce(Second(kind))) == q;
  }

  lemma SecondAloneIsOutOfOrder<S>(c: Consumer<S>, p: Pipe<S>, kind: Id)
    requires kind in c.kinds && p.applied == [Second(kind)] && p.rows == [First(kind), Second(kind)]
    ensures !InOrder(c, p)
  {
    assert p.applied[..0] == [] && p.rows[..1] == [First(kind)] && p.rows[..1][..0] == [];
    assert KeyRows(c.kinds, [First(kind)], 5) == [First(kind)];
    assert KeyRows(c.kinds, p.rows, 5) == [First(kind), Second(kind)];
    assert KeyRows(c.kinds, p.applied, 5) == [Second(kind)];
  }

  /** A pod whose next message is the second event, with the first not applied. */
  lemma DeliversSecond<S(!new)>(c: Consumer<S>, p: Pipe<S>, kind: Id, relays: set<Id>, drops: bool)
    requires Reachable(c, p, relays, drops) && kind in c.kinds
    requires p.rows == [First(kind), Second(kind)] && p.applied == [] && p.processed == {}
    requires 9 in p.cursors && p.cursors[9].pos < |LogOf(p.logs, p.cursors[9].partition)|
    requires LogOf(p.logs, p.cursors[9].partition)[p.cursors[9].pos] == Second(kind)
    ensures !AlwaysInOrder(c, relays, drops)
  {
    Then(c, p, Deliver(9), relays, drops);
    SecondAloneIsOutOfOrder(c, Step(c, p, Deliver(9)), kind);
  }

  function Locked(q: Id, r: Id, kind: Id): map<Id, Batch> {
    map[q := Batch([First(kind)], 0, false), r := Batch([Second(kind)], 0, false)]
  }

  lemma LockedInTwoBatches<S>(c: Consumer<S>, kind: Id, q: Id, r: Id, relays: set<Id>, drops: bool)
    requires q in relays && r in relays && q != r
    ensures Reachable(c, Sent<S>(kind, Locked(q, r, kind), []), relays, drops)
  {
    BothCommitted(c, kind, relays, drops);
    var p := Sent<S>(kind, map[], []);
    assert IsBatch(p, q, [First(kind)]);
    Then(c, p, RelayStart(q, [First(kind)]), relays, drops);
    var mid := Sent<S>(kind, map[q := Batch([First(kind)], 0, false)], []);
    assert Step(c, p, RelayStart(q, [First(kind)])) == mid;
    assert LockedElsewhere(mid.relays, r, First(kind)) && !LockedElsewhere(mid.relays, r, Second(kind));
    assert IsBatch(mid, r, [Second(kind)]);
    Then(c, mid, RelayStart(r, [Second(kind)]), relays, drops);
    assert mid.relays[r := Batch([Second(kind)], 0, false)] == Locked(q, r, kind);
  }

  /** One relay holds the first event while the other skips it and sends the second: no drop is needed. */
  lemma TwoRelaysReorder<S(!new)>(c: Consumer<S>, kind: Id, q: Id, r: Id, relays: set<Id>, drops: bool)
    requires kind in c.kinds && q in relays && r in relays && q != r
    ensures !AlwaysInOrder(c, relays, drops)
  {
    LockedInTwoBatches(c, kind, q, r, relays, drops);
    var p := Sent<S>(kind, Locked(q, r, kind), []);
    Then(c, p, RelaySent(r), relays, drops);
    var sent := Step(c, p, RelaySent(r));
    Then(c, sent, Join(9, 0, 0), relays, drops);
    DeliversSecond(c, Step(c, sent, Join(9, 0, 0)), kind, relays, drops);
  }

  function BothOf(kind: Id): seq<Row> { [First(kind), Second(kind)] }

  lemma SendsFirst<S>(c: Consumer<S>, kind: Id, r: Id)
    ensures var p := Sent<S>(kind, map[r := Batch(BothOf(kind), 0, false)], []);
            && Enabled(c, p, RelaySent(r))
            && Step(c, p, RelaySent(r)) == Sent<S>(kind, map[r := Batch(BothOf(kind), 1, false)], [First(kind)])
  {
    var p := Sent<S>(kind, map[r := Batch(BothOf(kind), 0, false)], []);
    assert LogOf(p.logs, 0) == [] && [] + [First(kind)] == [First(kind)];
    assert Appended(p.logs, First(kind)) == map[0 := [First(kind)]];
    assert p.relays[r := Batch(BothOf(kind), 1, false)] == map[r := Batch(BothOf(kind), 1, false)];
  }

  lemma SendsSecond<S>(c: Consumer<S>, kind: Id, r: Id)
    ensures var p := Sent<S>(kind, map[r := Batch(BothOf(kind), 1, false)], [First(kind)]);
            && Enabled(c, p, RelaySent(r))
            && Step(c, p, RelaySent(r)) == Sent<S>(kind, map[r := Batch(BothOf(kind), 2, false)], BothOf(kind))
  {
    var p := Sent<S>(kind, map[r := Batch(BothOf(kind), 1, false)], [First(kind)]);
    assert [First(kind)] + [Second(kind)] == BothOf(kind);
    assert Appended(p.logs, Second(kind)) == map[0 := BothOf(kind)];
    assert p.relays[r := Batch(BothOf(kind), 2, false)] == map[r := Batch(BothOf(kind), 2, false)];
  }

  lemma BothSent<S>(c: Consumer<S>, kind: Id, r: Id, relays: set<Id>, drops: bool)
    requires r in relays
    ensures Reachable(c, Sent<S>(kind, map[r := Batch(BothOf(kind), 2, false)], BothOf(kind)), relays, drops)
  {
    BothCommitted(c, kind, relays, drops);
    var p := Sent<S>(kind, map[], []);
    assert BothOf(kind)[..1] == [First(kind)];
    assert IsBatch(p, r, BothOf(kind));
    Then(c, p, RelayStart(r, BothOf(kind)), relays, drops);
    assert Step(c, p, RelayStart(r, BothOf(kind))) == Sent<S>(kind, map[r := Batch(BothOf(kind), 0, false)], []);
    SendsFirst(c, kind, r);
    Then(c, Sent<S>(kind, map[r := Batch(BothOf(kind), 0, false)], []), RelaySent(r), relays, drops);
    SendsSecond(c, kind, r);
    Then(c, Sent<S>(kind, map[r := Batch(BothOf(kind), 1, false)], [First(kind)]), RelaySent(r), relays, drops);
  }

  /** With a single relay, giving up on the first event lets the second take effect without it. */
  lemma GivingUpSkips<S(!new)>(c: Consumer<S>, kind: Id, r: Id, relays: set<Id>)
    requires kind in c.kinds && r in relays
    ensures !AlwaysInOrder(c, relays, true)
  {
    BothSent(c, kind, r, relays, true);
    var p := Sent<S>(kind, map[r := Batch(BothOf(kind), 2, false)], BothOf(kind));
    Then(c, p, Join(9, 0, 0), relays, true);
    var q := Step(c, p, Join(9, 0, 0));
    Then(c, q, GiveUp(9), relays, true);
    DeliversSecond(c, Step(c, q, GiveUp(9)), kind, relays, true);
  }

  // ---------------------------------------------------------------- in order

  /** All relays at work are among these. */
  ghost predicate RelaysAmong<S>(p: Pipe<S>, relays: set<Id>) {
    forall r :: r in p.relays ==> r in relays
  }

  lemma {:induction false} OneRelayRun<S>(c: Consumer<S>, p: Pipe<S>, run: seq<Action>, relays: set<Id>, key: Id)
    requires EnabledRun(c, p, run) && AllowedRun(run, relays, false) && RelaysAmong(p, relays)
    requires forall q, r :: q in relays && r in relays ==> q == r
    ensures OrderlyRun(c, p, run, key)
    decreases |run|
  {
    if run != [] {
      assert Allowed(run[0], relays, false);
      assert run[0].RelayStart? ==> NoRelayOn(p, key);
      assert AllowedRun(run[1..], relays, false);
      OneRelayRun(c, Step(c, p, run[0]), run[1..], relays, key);
    }
  }

  /** Without relays nothing reaches the broker. */
  ghost predicate Silent<S>(p: Pipe<S>) {
    p.relays == map[] && p.logs == map[] && p.applied == []
  }

  lemma {:induction false} NoRelayRun<S>(c: Consumer<S>, p: Pipe<S>, run: seq<Action>, drops: bool)
    requires EnabledRun(c, p, run) && AllowedRun(run, {}, drops) && Silent(p)
    ensures Silent(Run(c, p, run))
    decreases |run|
  {
    if run != [] {
      assert Allowed(run[0], {}, drops);
      assert AllowedRun(run[1..], {}, drops);
      NoRelayRun(c, Step(c, p, run[0]), run[1..], drops);
    }
  }

  lemma ReachableIsInOrder<S>(c: Consumer<S>, p: Pipe<S>, relays: set<Id>, drops: bool)
    requires Reachable(c, p, relays, drops)
    requires relays == {} || (!drops && forall q, r :: q in relays && r in relays ==> q == r)
    ensures InOrder(c, p)
  {
    var run :| Reaches(c, run, p, relays, drops);
    forall key ensures KeyRows(c.kinds, p.applied, key) <= KeyRows(c.kinds, p.rows, key) {
      if relays == {} {
        NoRelayRun(c, Start<S>(), run, drops);
      } else {
        OneRelayRun(c, Start<S>(), run, relays, key);
        EffectsInOrder(c, run, key);
      }
    }
  }

  lemma Member<T>(s: set<T>) returns (e: T)
    requires s != {}
    ensures e in s
  {
    e :| e in s;
  }

  /** The exact condition. Under a policy every key's events are applied in order, in every reachable state, exactly
      when there is nothing to apply, no relay at all, or a single relay and no giving up. */
  lemma InOrderIff<S(!new)>(c: Consumer<S>, relays: set<Id>, drops: bool)
    ensures AlwaysInOrder(c, relays, drops) <==> c.kinds == {} || relays == {} || (|relays| == 1 && !drops)
  {
    if c.kinds == {} {
      NothingHandled(c, relays, drops);
    } else if relays == {} {
      forall p | Reachable(c, p, relays, drops) ensures InOrder(c, p) {
        ReachableIsInOrder(c, p, relays, drops);
      }
    } else {
      var kind := Member(c.kinds);
      var r := Member(relays);
      if relays != {r} {
        var q := Member(relays - {r});
        TwoRelaysReorder(c, kind, q, r, relays, drops);
        SubsetSize({q, r}, relays);
        assert |{q, r}| == 2;
      } else if drops {
        GivingUpSkips(c, kind, r, relays);
      } else {
        forall p | Reachable(c, p, relays, drops) ensures InOrder(c, p) {
          ReachableIsInOrder(c, p, relays, drops);
        }
      }
    }
  }

  lemma NothingHandled<S(!new)>(c: Consumer<S>, relays: set<Id>, drops: bool)
    requires c.kinds == {}
    ensures AlwaysInOrder(c, relays, drops)
  {
    forall p, key | Reachable(c, p, relays, drops) ensures KeyRows(c.kinds, p.applied, key) == [] {
      NoKeyRows(c.kinds, p.applied, key);
    }
  }

  lemma {:induction false} NoKeyRows(kinds: set<Id>, rows: seq<Row>, key: Id)
    requires kinds == {}
    ensures KeyRows(kinds, rows, key) == []
  {
    if rows != [] {
      NoKeyRows(kinds, rows[..|rows| - 1], key);
    }
  }
}
