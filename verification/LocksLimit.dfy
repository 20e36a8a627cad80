/** Why deadlock freedom needs any two requests of a shipment to meet, and no more. Two reserves for disjoint SKUs both
    see no rows and both go through. A commit that read the shipment's items in between locks the first one's only; it
    then finds holds on the second one's as well, and waits for them behind a release that read both. */
module LocksLimit {
  import opened Common
  import opened Locks

  ghost predicate Reachable(lines: Requests, sku: map<Item, Id>, s: World) {
    exists run :: Reaches(lines, sku, run, s)
  }

  ghost predicate Reaches(lines: Requests, sku: map<Item, Id>, run: seq<Action>, s: World) {
    LockRun(lines, Idle(sku), run) && AnyRun(Idle(sku), run) && Run(Idle(sku), run) == s
  }

  lemma {:induction false} RunSnoc(lines: Requests, s: World, run: seq<Action>, a: Action)
    requires LockRun(lines, s, run) && AnyRun(s, run) && Enabled(Run(s, run), a) && Requested(lines, Run(s, run), a)
    ensures LockRun(lines, s, run + [a]) && AnyRun(s, run + [a]) && Run(s, run + [a]) == Step(Run(s, run), a)
    decreases |run|
  {
    if run == [] {
      var next := Step(s, a);
      assert LockRun(lines, next, []) && AnyRun(next, []) && Run(next, []) == next;
      assert (run + [a])[0] == a && (run + [a])[1..] == [];
    } else {
      RunSnoc(lines, Step(s, run[0]), run[1..], a);
      assert (run + [a])[1..] == run[1..] + [a];
    }
  }

  lemma Then(lines: Requests, sku: map<Item, Id>, s: World, a: Action)
    requires Reachable(lines, sku, s) && Enabled(s, a) && Requested(lines, s, a)
    ensures Reachable(lines, sku, Step(s, a))
  {
    var run :| Reaches(lines, sku, run, s);
    RunSnoc(lines, Idle(sku), run, a);
    assert Reaches(lines, sku, run + [a], Step(s, a));
  }

  // ---------------------------------------------------------------- items in ascending order

  lemma Member<T>(s: set<T>) returns (e: T)
    requires s != {}
    ensures e in s
  {
    e :| e in s;
  }

  lemma {:induction false} LeastExists(s: set<int>)
    requires s != {}
    ensures exists m :: m in s && forall x :: x in s ==> m <= x
  {
    var e := Member(s);
    var least := e;
    if s - {e} != {} {
      LeastExists(s - {e});
      var m :| m in s - {e} && forall x :: x in s - {e} ==> m <= x;
      least := if m < e then m else e;
    }
    forall x | x in s ensures least <= x {
      assert x == e || x in s - {e};
    }
    assert least in s;
  }

  ghost function Least(s: set<int>): (m: int)
    requires s != {}
    ensures m in s && forall x :: x in s ==> m <= x
  {
    LeastExists(s);
    var m :| m in s && forall x :: x in s ==> m <= x;
    m
  }

  ghost function Sorted(s: set<int>): (r: seq<int>)
    ensures Ascending(r) && Range(r) == s && (forall x :: x in r <==> x in s)
    decreases |s|
  {
    if s == {} then []
    else
      var rest := Sorted(s - {Least(s)});
      assert forall x :: x in rest ==> x in s && Least(s) < x;
      [Least(s)] + rest
  }

  // ---------------------------------------------------------------- stretches of lock steps

  lemma TakeNext(lines: Requests, sku: map<Item, Id>, s: World, t: Txn)
    requires Reachable(lines, sku, s) && t in s.work && s.work[t].phase.LockingItems?
    requires s.work[t].got < |s.work[t].want|
    requires var next := s.work[t].want[s.work[t].got]; next in s.itemOwner ==> s.itemOwner[next] == t
    ensures var w := s.work[t];
            Reachable(lines, sku, s.(itemOwner := s.itemOwner[w.want[w.got] := t],
                                     work := s.work[t := w.(got := w.got + 1)]))
  {
    assert forall u :: !Waits(s, t, u);
    Then(lines, sku, s, LockNext(t));
  }

  /** A transaction locks its next items up to the n-th, none of which anybody owns. */
  lemma {:induction false} TakeItems(lines: Requests, sku: map<Item, Id>, s: World, t: Txn, n: nat) returns (r: World)
    requires Reachable(lines, sku, s) && t in s.work && s.work[t].phase.LockingItems?
    requires s.work[t].got <= n <= |s.work[t].want| && Ascending(s.work[t].want)
    requires forall k :: s.work[t].got <= k < n ==> s.work[t].want[k] !in s.itemOwner
    ensures Reachable(lines, sku, r)
    ensures r == s.(itemOwner := r.itemOwner, work := s.work[t := s.work[t].(got := n)])
    ensures forall i :: i in s.itemOwner ==> i in r.itemOwner && r.itemOwner[i] == s.itemOwner[i]
    ensures forall k :: s.work[t].got <= k < n ==>
              s.work[t].want[k] in r.itemOwner && r.itemOwner[s.work[t].want[k]] == t
    ensures forall i :: i in r.itemOwner && i !in s.itemOwner ==> i in s.work[t].want && r.itemOwner[i] == t
    decreases n - s.work[t].got
  {
    var w := s.work[t];
    if n == w.got {
      r := s;
      assert s.work[t := w] == s.work;
    } else {
      var p := TakeItems(lines, sku, s, t, n - 1);
      TakeNext(lines, sku, p, t);
      r := p.(itemOwner := p.itemOwner[w.want[n - 1] := t], work := p.work[t := w.(got := n)]);
      assert p.work[t := w.(got := n)] == s.work[t := w.(got := n)];
    }
  }

  lemma {:induction false} TakeHolds(lines: Requests, sku: map<Item, Id>, s: World, t: Txn, n: nat) returns (r: World)
    requires Reachable(lines, sku, s) && t in s.work && s.work[t].phase.LockingHolds? && s.work[t].phase.taken == 0
    requires n <= |s.work[t].phase.found| && Ascending(s.work[t].phase.found) && s.holdOwner == map[]
    ensures Reachable(lines, sku, r)
    ensures r ==
              s.(holdOwner := r.holdOwner,
                 work := s.work[t := s.work[t].(phase := LockingHolds(s.work[t].phase.found, n))])
    ensures forall h :: h in r.holdOwner ==> r.holdOwner[h] == t
    decreases n
  {
    var w := s.work[t];
    var found := w.phase.found;
    if n == 0 {
      r := s;
      assert s.work[t := w.(phase := LockingHolds(found, 0))] == s.work;
    } else {
      var p := TakeHolds(lines, sku, s, t, n - 1);
      assert forall u :: !Waits(p, t, u);
      Then(lines, sku, p, LockNext(t));
      r := Step(p, LockNext(t));
      assert p.work[t := w.(phase := LockingHolds(found, n))] == s.work[t := w.(phase := LockingHolds(found, n))];
    }
  }

  predicate OwnsNothing(s: World, t: Txn) {
    (forall i :: i in s.itemOwner ==> s.itemOwner[i] != t) && forall h :: h in s.holdOwner ==> s.holdOwner[h] != t
  }

  /** Rows that the reserve's unique constraint lets in. */
  predicate Insertable(sku: map<Item, Id>, holds: map<HoldId, Hold>, ship: Ship, want: seq<Item>, ids: seq<HoldId>) {
    && |ids| == |want| > 0 && DistinctSkus(sku, want)
    && (forall j, k :: 0 <= j < k < |ids| ==> ids[j] != ids[k])
    && (forall j :: 0 <= j < |ids| ==> ids[j] !in holds && !RowFor(sku, holds, ship, sku[want[j]]))
  }

  lemma StartReserve(lines: Requests, sku: map<Item, Id>, s: World, t: Txn, ship: Ship, want: seq<Item>)
    requires Reachable(lines, sku, s) && t !in s.work && Ascending(want) && s.holds == map[]
    ensures Reachable(lines, sku, s.(work := s.work[t := Work(Reserving(ship), want, 0, LockingItems)]))
  {
    Then(lines, sku, s, Start(t, Reserving(ship), want));
  }

  lemma StartSettle(lines: Requests, sku: map<Item, Id>, s: World, t: Txn, ship: Ship, want: seq<Item>)
    requires Reachable(lines, sku, s) && t !in s.work && Ascending(want) && want != []
    requires Range(want) == HeldItems(s.holds, ship)
    ensures Reachable(lines, sku, s.(work := s.work[t := Work(Settling(ship), want, 0, LockingItems)]))
  {
    Then(lines, sku, s, Start(t, Settling(ship), want));
  }

  /** A reserve that has locked its items and found no lapsed hold. */
  function Looked(s: World, t: Txn, ship: Ship, want: seq<Item>): World {
    s.(work := s.work[t := Work(Reserving(ship), want, |want|, LockingHolds([], 0))])
  }

  lemma LookForLapsed(lines: Requests, sku: map<Item, Id>, s: World, t: Txn, ship: Ship, want: seq<Item>)
    requires Reachable(lines, sku, s) && t in s.work
    requires s.work[t] == Work(Reserving(ship), want, |want|, LockingItems)
    ensures Reachable(lines, sku, Looked(s, t, ship, want))
  {
    Then(lines, sku, s, Look(t, []));
    assert Step(s, Look(t, [])) == Looked(s, t, ship, want);
  }

  lemma ReserveCanFinish(s: World, t: Txn, ship: Ship, want: seq<Item>, ids: seq<HoldId>)
    requires Insertable(s.sku, s.holds, ship, want, ids)
    ensures Enabled(Looked(s, t, ship, want), Finish(t, ids))
  {
  }

  lemma ReserveWrites(s: World, t: Txn, ship: Ship, want: seq<Item>, ids: seq<HoldId>)
    requires |ids| == |want|
    ensures Written(Looked(s, t, ship, want), t, ids) == s.holds + Placed(ship, want, ids)
  {
    NothingClosed(s.holds);
  }

  lemma ReserveGoes(s: World, t: Txn, ship: Ship, want: seq<Item>, holds: map<HoldId, Hold>)
    ensures Gone(Looked(s, t, ship, want).(holds := holds), t) == Gone(s.(holds := holds), t)
  {
    assert Looked(s, t, ship, want).work - {t} == s.work - {t};
  }

  lemma FinishReserve(lines: Requests, sku: map<Item, Id>, s: World, t: Txn, ship: Ship, want: seq<Item>,
                      ids: seq<HoldId>)
    requires Reachable(lines, sku, s) && t in s.work
    requires s.work[t] == Work(Reserving(ship), want, |want|, LockingItems)
    requires ship in lines && Range(want) in lines[ship] && Insertable(s.sku, s.holds, ship, want, ids)
    ensures Reachable(lines, sku, Gone(s.(holds := s.holds + Placed(ship, want, ids)), t))
  {
    LookForLapsed(lines, sku, s, t, ship, want);
    ReserveCanFinish(s, t, ship, want, ids);
    ReserveWrites(s, t, ship, want, ids);
    ReserveGoes(s, t, ship, want, s.holds + Placed(ship, want, ids));
    Then(lines, sku, Looked(s, t, ship, want), Finish(t, ids));
  }

  lemma Released(before: map<Id, Txn>, after: map<Id, Txn>, t: Txn)
    requires forall k :: k in before ==> before[k] != t && k in after && after[k] == before[k]
    requires forall k :: k in after && k !in before ==> after[k] == t
    ensures Release(after, t) == before
  {
    var r := Release(after, t);
    assert forall k :: k in r ==> k in after && after[k] != t && r[k] == after[k];
    assert forall k :: k in r ==> k in before && r[k] == before[k];
    assert forall k :: k in before ==> k in r;
    assert r.Keys == before.Keys;
    assert r == before;
  }

  function Through(s: World, t: Txn, holds: map<HoldId, Hold>): World {
    s.(holds := holds, work := s.work - {t})
  }

  /** Whatever a transaction locked on its way is free again when it is gone. */
  lemma GoneWithItsLocks(s: World, r: World, t: Txn, w: Work, holds: map<HoldId, Hold>)
    requires OwnsNothing(s, t) && r == s.(itemOwner := r.itemOwner, work := s.work[t := w])
    requires forall i :: i in s.itemOwner ==> i in r.itemOwner && r.itemOwner[i] == s.itemOwner[i]
    requires forall i :: i in r.itemOwner && i !in s.itemOwner ==> r.itemOwner[i] == t
    ensures Gone(r.(holds := holds), t) == Through(s, t, holds)
  {
    assert r.work - {t} == s.work - {t};
    Released(s.itemOwner, r.itemOwner, t);
    Released(s.holdOwner, r.holdOwner, t);
  }

  /** All rows are the shipment's, and held on these items. */
  predicate HeldExactly(holds: map<HoldId, Hold>, ship: Ship, items: set<Item>) {
    && (forall h :: h in holds ==> holds[h].ship == ship && holds[h].held && holds[h].item in items)
    && forall i :: i in items ==> exists h :: h in holds && holds[h].item == i
  }

  lemma PlacedOn(ship: Ship, want: seq<Item>, ids: seq<HoldId>)
    requires |ids| == |want| && forall j, k :: 0 <= j < k < |ids| ==> ids[j] != ids[k]
    ensures HeldExactly(Placed(ship, want, ids), ship, Range(want))
  {
    var placed := Placed(ship, want, ids);
    forall i | i in Range(want) ensures exists h :: h in placed && placed[h].item == i {
      var k :| 0 <= k < |want| && want[k] == i;
      assert ids[k] in placed && placed[ids[k]].item == i;
    }
    forall h | h in placed ensures placed[h].ship == ship && placed[h].held && placed[h].item in Range(want) {
      var k :| 0 <= k < |ids| && ids[k] == h && placed[h] == Hold(ship, want[k], true);
    }
  }

  /** A reserve from its start to its commit, with nobody in its way. */
  lemma ReserveThrough(lines: Requests, sku: map<Item, Id>, s: World, t: Txn, ship: Ship, want: seq<Item>,
                       ids: seq<HoldId>)
    returns (placed: map<HoldId, Hold>)
    requires Reachable(lines, sku, s) && t in s.work && OwnsNothing(s, t)
    requires s.work[t] == Work(Reserving(ship), want, 0, LockingItems) && Ascending(want)
    requires ship in lines && Range(want) in lines[ship] && Insertable(s.sku, s.holds, ship, want, ids)
    requires forall i :: i in want ==> i !in s.itemOwner
    ensures Reachable(lines, sku, Through(s, t, s.holds + placed))
    ensures HeldExactly(placed, ship, Range(want)) && forall h :: h in placed ==> h in ids
  {
    placed := Placed(ship, want, ids);
    var r := TakeItems(lines, sku, s, t, |want|);
    FinishReserve(lines, sku, r, t, ship, want, ids);
    GoneWithItsLocks(s, r, t, s.work[t].(got := |want|), s.holds + placed);
    PlacedOn(ship, want, ids);
  }

  // ---------------------------------------------------------------- the circle

  /** A request in one warehouse: known items, at least one, one per SKU. */
  predicate WellFormed(sku: map<Item, Id>, request: set<Item>) {
    && request != {} && (forall i :: i in request ==> i in sku)
    && forall i, j :: i in request && j in request && sku[i] == sku[j] ==> i == j
  }

  lemma SortedIsDistinct(sku: map<Item, Id>, request: set<Item>)
    requires WellFormed(sku, request)
    ensures DistinctSkus(sku, Sorted(request)) && |Sorted(request)| > 0
  {
    var r := Sorted(request);
    forall j | 0 <= j < |r| ensures r[j] in request {
      assert r[j] in r;
    }
    var e := Member(request);
    assert e in r;
  }

  lemma HeldItemsAre(holds: map<HoldId, Hold>, ship: Ship, items: set<Item>)
    requires HeldExactly(holds, ship, items)
    ensures HeldItems(holds, ship) == items
  {
    forall i | i in items ensures i in HeldItems(holds, ship) {
      var h :| h in holds && holds[h].item == i;
      assert holds[h].ship == ship && holds[h].held;
    }
  }

  lemma BothHeld(a: map<HoldId, Hold>, b: map<HoldId, Hold>, ship: Ship, as': set<Item>, bs: set<Item>)
    requires HeldExactly(a, ship, as') && HeldExactly(b, ship, bs) && a.Keys !! b.Keys
    ensures HeldExactly(a + b, ship, as' + bs)
  {
    forall i | i in as' + bs ensures exists h :: h in a + b && (a + b)[h].item == i {
      if i in as' {
        var h :| h in a && a[h].item == i;
        assert h in a + b && (a + b)[h] == a[h];
      } else {
        var h :| h in b && b[h].item == i;
        assert h in a + b && (a + b)[h] == b[h];
      }
    }
  }

  function Numbers(from: int, n: nat): (ids: seq<HoldId>)
    ensures |ids| == n && (forall k :: 0 <= k < n ==> ids[k] == from + k)
  {
    seq(n, k => from + k)
  }

  lemma EmptyRange(s: seq<int>)
    ensures Range(s) == {} ==> s == []
  {
    assert s != [] ==> s[0] in Range(s);
  }

  lemma IdleReachable(lines: Requests, sku: map<Item, Id>)
    ensures Reachable(lines, sku, Idle(sku))
  {
    assert Reaches(lines, sku, [], Idle(sku));
  }

  function Waiting(ship: Ship, want: seq<Item>): Work { Work(Reserving(ship), want, 0, LockingItems) }

  function Locked(ship: Ship, want: seq<Item>, n: nat): Work { Work(Settling(ship), want, n, LockingItems) }

  function Quiet(sku: map<Item, Id>, holds: map<HoldId, Hold>, work: map<Txn, Work>): World {
    World(sku, holds, map[], map[], work)
  }

  lemma BothStart(lines: Requests, sku: map<Item, Id>, ship: Ship, wa: seq<Item>, wb: seq<Item>)
    requires Ascending(wa) && Ascending(wb)
    ensures Reachable(lines, sku, Quiet(sku, map[], map[11 := Waiting(ship, wa), 12 := Waiting(ship, wb)]))
  {
    IdleReachable(lines, sku);
    StartReserve(lines, sku, Idle(sku), 11, ship, wa);
    assert Idle(sku).work[11 := Waiting(ship, wa)] == map[11 := Waiting(ship, wa)];
    var s := Quiet(sku, map[], map[11 := Waiting(ship, wa)]);
    StartReserve(lines, sku, s, 12, ship, wb);
    assert s.work[12 := Waiting(ship, wb)] == map[11 := Waiting(ship, wa), 12 := Waiting(ship, wb)];
  }

  /** The first reserve is in and the second has not moved yet. */
  lemma FirstIn(lines: Requests, sku: map<Item, Id>, ship: Ship, wa: seq<Item>, ids: seq<HoldId>, wb: seq<Item>)
    returns (holds: map<HoldId, Hold>)
    requires ship in lines && Range(wa) in lines[ship] && Ascending(wa) && Ascending(wb)
    requires Insertable(sku, map[], ship, wa, ids)
    ensures Reachable(lines, sku, Quiet(sku, holds, map[12 := Waiting(ship, wb)]))
    ensures HeldExactly(holds, ship, Range(wa)) && forall h :: h in holds ==> h in ids
  {
    BothStart(lines, sku, ship, wa, wb);
    var s := Quiet(sku, map[], map[11 := Waiting(ship, wa), 12 := Waiting(ship, wb)]);
    holds := ReserveThrough(lines, sku, s, 11, ship, wa, ids);
    assert s.work - {11} == map[12 := Waiting(ship, wb)];
    assert map[] + holds == holds;
  }

  /** A commit of the shipment has then read the first one's items and locked them. */
  lemma CommitIn(lines: Requests, sku: map<Item, Id>, ship: Ship, wa: seq<Item>, holds: map<HoldId, Hold>,
                 wb: seq<Item>)
    returns (s: World)
    requires Reachable(lines, sku, Quiet(sku, holds, map[12 := Waiting(ship, wb)]))
    requires HeldExactly(holds, ship, Range(wa)) && Ascending(wa) && wa != []
    ensures Reachable(lines, sku, s)
    ensures s ==
              Quiet(sku, holds, map[12 := Waiting(ship, wb), 13 := Locked(ship, wa, |wa|)]).(itemOwner := s.itemOwner)
    ensures forall i :: i in s.itemOwner ==> i in wa && s.itemOwner[i] == 13
    ensures forall i :: i in wa ==> i in s.itemOwner
  {
    HeldItemsAre(holds, ship, Range(wa));
    var p := Quiet(sku, holds, map[12 := Waiting(ship, wb)]);
    StartSettle(lines, sku, p, 13, ship, wa);
    var work := map[12 := Waiting(ship, wb), 13 := Locked(ship, wa, 0)];
    assert p.work[13 := Locked(ship, wa, 0)] == work;
    s := TakeItems(lines, sku, Quiet(sku, holds, work), 13, |wa|);
    assert work[13 := Locked(ship, wa, |wa|)] == map[12 := Waiting(ship, wb), 13 := Locked(ship, wa, |wa|)];
  }

  lemma FirstIsInsertable(sku: map<Item, Id>, ship: Ship, a: set<Item>)
    requires WellFormed(sku, a)
    ensures Insertable(sku, map[], ship, Sorted(a), Numbers(0, |Sorted(a)|))
  {
    SortedIsDistinct(sku, a);
  }

  lemma SecondIsInsertable(sku: map<Item, Id>, holds: map<HoldId, Hold>, ship: Ship, a: set<Item>, b: set<Item>, n: nat)
    requires WellFormed(sku, b) && !Meet(sku, a, b) && HeldExactly(holds, ship, a)
    requires forall h :: h in holds ==> h < n
    ensures Insertable(sku, holds, ship, Sorted(b), Numbers(n, |Sorted(b)|))
  {
    var wb := Sorted(b);
    SortedIsDistinct(sku, b);
    forall j | 0 <= j < |wb| ensures !RowFor(sku, holds, ship, sku[wb[j]]) {
      assert wb[j] in wb && wb[j] in b;
    }
  }

  /** Both reserves are in, and the commit owns the items of the first. */
  lemma BothIn(lines: Requests, sku: map<Item, Id>, ship: Ship, a: set<Item>, b: set<Item>) returns (s: World)
    requires ship in lines && a in lines[ship] && b in lines[ship] && WellFormed(sku, a) && WellFormed(sku, b)
    requires !Meet(sku, a, b)
    ensures Reachable(lines, sku, s) && HeldExactly(s.holds, ship, a + b)
    ensures s == Quiet(sku, s.holds, map[13 := Locked(ship, Sorted(a), |Sorted(a)|)]).(itemOwner := s.itemOwner)
    ensures forall i :: i in s.itemOwner ==> i in a && s.itemOwner[i] == 13
    ensures forall i :: i in a ==> i in s.itemOwner
  {
    var wa, wb := Sorted(a), Sorted(b);
    FirstIsInsertable(sku, ship, a);
    var first := FirstIn(lines, sku, ship, wa, Numbers(0, |wa|), wb);
    var p := CommitIn(lines, sku, ship, wa, first, wb);
    SecondIsInsertable(sku, first, ship, a, b, |wa|);
    Apart(sku, a, b);
    s := SecondIn(lines, sku, p, ship, wa, wb, Numbers(|wa|, |wb|));
  }

  lemma SecondIn(lines: Requests, sku: map<Item, Id>, p: World, ship: Ship, wa: seq<Item>, wb: seq<Item>,
                 ids: seq<HoldId>)
    returns (s: World)
    requires Reachable(lines, sku, p) && ship in lines && Range(wb) in lines[ship] && Ascending(wb)
    requires p ==
               Quiet(sku, p.holds,
                     map[12 := Waiting(ship, wb), 13 := Locked(ship, wa, |wa|)]).(itemOwner := p.itemOwner)
    requires HeldExactly(p.holds, ship, Range(wa)) && Insertable(sku, p.holds, ship, wb, ids)
    requires forall i :: i in p.itemOwner ==> i !in wb && p.itemOwner[i] == 13
    ensures Reachable(lines, sku, s) && HeldExactly(s.holds, ship, Range(wa) + Range(wb))
    ensures s == Quiet(sku, s.holds, map[13 := Locked(ship, wa, |wa|)]).(itemOwner := p.itemOwner)
  {
    var placed := ReserveThrough(lines, sku, p, 12, ship, wb, ids);
    s := Through(p, 12, p.holds + placed);
    assert p.work - {12} == map[13 := Locked(ship, wa, |wa|)];
    forall h | h in placed ensures h !in p.holds {
      var j :| 0 <= j < |ids| && ids[j] == h;
    }
    BothHeld(p.holds, placed, ship, Range(wa), Range(wb));
  }

  lemma Apart(sku: map<Item, Id>, a: set<Item>, b: set<Item>)
    requires WellFormed(sku, a) && !Meet(sku, a, b)
    ensures forall i :: i in b ==> i !in a
  {
    forall i | i in b ensures i !in a {
      assert i in a ==> Meet(sku, a, b);
    }
  }

  lemma LeastComesLater(a: set<int>, b: set<int>) returns (n: nat)
    requires a != {} && b != {} && Least(b) < Least(a)
    ensures 0 < n < |Sorted(a + b)| && Sorted(a + b)[n] == Least(a)
    ensures forall k :: 0 <= k < n ==> Sorted(a + b)[k] !in a
  {
    var all := Sorted(a + b);
    assert Least(a) in all && Least(b) in all;
    n :| 0 <= n < |all| && all[n] == Least(a);
    var m :| 0 <= m < |all| && all[m] == Least(b);
    assert all[0] <= all[m] < all[n];
  }

  /** A release reads the items of both. */
  lemma ReleaseStarts(lines: Requests, sku: map<Item, Id>, s: World, ship: Ship, wa: seq<Item>, all: seq<Item>)
    requires Reachable(lines, sku, s) && s.work == map[13 := Locked(ship, wa, |wa|)]
    requires HeldExactly(s.holds, ship, Range(all)) && Ascending(all) && all != []
    ensures Reachable(lines, sku, s.(work := map[13 := Locked(ship, wa, |wa|), 14 := Locked(ship, all, 0)]))
  {
    HeldItemsAre(s.holds, ship, Range(all));
    StartSettle(lines, sku, s, 14, ship, all);
    assert s.work[14 := Locked(ship, all, 0)] == map[13 := Locked(ship, wa, |wa|), 14 := Locked(ship, all, 0)];
  }

  /** It locks those below the first request's least, for which it then waits. */
  lemma ReleaseStops(lines: Requests, sku: map<Item, Id>, p: World, ship: Ship, wa: seq<Item>, all: seq<Item>, n: nat)
    returns (s: World)
    requires Reachable(lines, sku, p) && p == Quiet(sku, p.holds, p.work).(itemOwner := p.itemOwner)
    requires p.work == map[13 := Locked(ship, wa, |wa|), 14 := Locked(ship, all, 0)] && Ascending(all)
    requires 0 < n < |all| && (forall k :: 0 <= k < n ==> all[k] !in p.itemOwner)
    requires all[n] in p.itemOwner && p.itemOwner[all[n]] == 13
    ensures Reachable(lines, sku, s) && s.holds == p.holds && s.holdOwner == map[]
    ensures s.work == map[13 := Locked(ship, wa, |wa|), 14 := Locked(ship, all, n)]
    ensures all[n] in s.itemOwner && s.itemOwner[all[n]] == 13
    ensures all[0] in s.itemOwner && s.itemOwner[all[0]] == 14
  {
    s := TakeItems(lines, sku, p, 14, n);
    assert p.work[14].want[0] == all[0] && p.work[14].want[0] in s.itemOwner;
    assert p.work[14 := Locked(ship, all, n)] == map[13 := Locked(ship, wa, |wa|), 14 := Locked(ship, all, n)];
  }

  lemma ReleaseWaits(lines: Requests, sku: map<Item, Id>, ship: Ship, a: set<Item>, b: set<Item>)
    returns (s: World, n: nat)
    requires ship in lines && a in lines[ship] && b in lines[ship] && WellFormed(sku, a) && WellFormed(sku, b)
    requires !Meet(sku, a, b) && Least(b) < Least(a)
    ensures Reachable(lines, sku, s) && HeldExactly(s.holds, ship, a + b) && s.holdOwner == map[]
    ensures 0 < n < |Sorted(a + b)|
    ensures s.work == map[13 := Locked(ship, Sorted(a), |Sorted(a)|), 14 := Locked(ship, Sorted(a + b), n)]
    ensures Sorted(a + b)[n] in s.itemOwner && s.itemOwner[Sorted(a + b)[n]] == 13
    ensures Sorted(a + b)[0] in s.itemOwner && s.itemOwner[Sorted(a + b)[0]] == 14
  {
    var wa, all := Sorted(a), Sorted(a + b);
    var p := BothIn(lines, sku, ship, a, b);
    n := LeastComesLater(a, b);
    ReleaseStarts(lines, sku, p, ship, wa, all);
    var q := p.(work := map[13 := Locked(ship, wa, |wa|), 14 := Locked(ship, all, 0)]);
    assert all[n] in a;
    s := ReleaseStops(lines, sku, q, ship, wa, all, n);
  }

  /** The commit finds the holds of both reserves and locks them. */
  lemma CommitFinds(lines: Requests, sku: map<Item, Id>, s: World, t: Txn, ship: Ship, want: seq<Item>)
    returns (r: World, found: seq<HoldId>)
    requires Reachable(lines, sku, s) && t in s.work && s.work[t] == Work(Settling(ship), want, |want|, LockingItems)
    requires s.holdOwner == map[]
    ensures Reachable(lines, sku, r) && Range(found) == HeldOf(s.holds, ship)
    ensures r == s.(holdOwner := r.holdOwner,
                    work := s.work[t := Work(Settling(ship), want, |want|, LockingHolds(found, |found|))])
  {
    found := Sorted(HeldOf(s.holds, ship));
    Then(lines, sku, s, Look(t, found));
    var looked := s.(work := s.work[t := Work(Settling(ship), want, |want|, LockingHolds(found, 0))]);
    assert Step(s, Look(t, found)) == looked;
    r := TakeHolds(lines, sku, looked, t, |found|);
    assert r.work == s.work[t := Work(Settling(ship), want, |want|, LockingHolds(found, |found|))];
  }

  lemma CommitAsksAgain(lines: Requests, sku: map<Item, Id>, s: World, t: Txn, ship: Ship, want: seq<Item>,
                        found: seq<HoldId>,
                        again: seq<Item>)
    requires Reachable(lines, sku, s) && t in s.work
    requires s.work[t] == Work(Settling(ship), want, |want|, LockingHolds(found, |found|))
    requires Range(found) == HeldOf(s.holds, ship) && HeldExactly(s.holds, ship, Range(again)) && Ascending(again)
    ensures Reachable(lines, sku,
                      s.(work := s.work[t := Work(Settling(ship), want, |want|, Relocking(found, again, 0))]))
  {
    forall i ensures i in again <==> exists h :: h in found && h in s.holds && s.holds[h].item == i {
      if i in again {
        assert i in Range(again);
        var h :| h in s.holds && s.holds[h].item == i;
        assert h in HeldOf(s.holds, ship) && h in Range(found);
      }
    }
    Then(lines, sku, s, Relook(t, again));
  }

  /** Two requests of a shipment without a common SKU: a reachable state in which a commit and a release of the shipment
      wait for each other. */
  lemma OrderedRequestsDeadlock(lines: Requests, sku: map<Item, Id>, ship: Ship, a: set<Item>, b: set<Item>)
    returns (s: World)
    requires ship in lines && a in lines[ship] && b in lines[ship] && WellFormed(sku, a) && WellFormed(sku, b)
    requires !Meet(sku, a, b) && Least(b) < Least(a)
    ensures Reachable(lines, sku, s) && Waits(s, 13, 14) && Waits(s, 14, 13)
  {
    var p, n := ReleaseWaits(lines, sku, ship, a, b);
    var wa, again := Sorted(a), Sorted(a + b);
    var q, found := CommitFinds(lines, sku, p, 13, ship, wa);
    CommitAsksAgain(lines, sku, q, 13, ship, wa, found, again);
    s := q.(work := q.work[13 := Work(Settling(ship), wa, |wa|, Relocking(found, again, 0))]);
  }

  lemma DifferentLinesDeadlock(lines: Requests, sku: map<Item, Id>, ship: Ship, a: set<Item>, b: set<Item>)
    returns (s: World)
    requires ship in lines && a in lines[ship] && b in lines[ship] && WellFormed(sku, a) && WellFormed(sku, b)
    requires !Meet(sku, a, b)
    ensures Reachable(lines, sku, s) && Deadlocked(s)
  {
    if Least(b) < Least(a) {
      s := OrderedRequestsDeadlock(lines, sku, ship, a, b);
    } else {
      assert Least(a) == Least(b) ==> Meet(sku, a, b);
      assert Meet(sku, b, a) ==> Meet(sku, a, b);
      s := OrderedRequestsDeadlock(lines, sku, ship, b, a);
    }
    assert WaitChain(s, [13, 14, 13]);
  }

  ghost predicate DeadlockFree(lines: Requests, sku: map<Item, Id>) {
    forall s :: Reachable(lines, sku, s) ==> !Deadlocked(s)
  }

  /** The exact condition. If shipments reserve only what `lines` allows, no reachable state is deadlocked exactly when
      any two requests of one shipment share a SKU. */
  lemma DeadlockFreeIff(lines: Requests, sku: map<Item, Id>)
    requires forall ship, r {:trigger r in lines[ship]} :: ship in lines && r in lines[ship] ==> WellFormed(sku, r)
    ensures DeadlockFree(lines, sku) <==> Meets(sku, lines)
  {
    if Meets(sku, lines) {
      forall s | Reachable(lines, sku, s) ensures !Deadlocked(s) {
        var run :| Reaches(lines, sku, run, s);
        NoDeadlock(lines, sku, run);
      }
    } else {
      var ship, a, b :| ship in lines && a in lines[ship] && b in lines[ship] && !Meet(sku, a, b);
      var s := DifferentLinesDeadlock(lines, sku, ship, a, b);
    }
  }
}
