/** Runs of any number of pods over one key table: early clocks, crashes, takeovers, expiry and purging. */
module IdempotencyRuns {
  import opened Common
  import opened Idempotency

  /** A pod between reading its clock and locking the key, or between its claim and the end of its work. `born` is when
      the key's current use began; `expires` is the key's expiry as the claim left it. */
  datatype Pod =
    | Clocked(key: KeyId, request: Id, now: Time)
    | Holding(key: KeyId, request: Id, id: Id, born: Time, lease: Time, expires: Time)

  /** Work that was committed together with its stored response. */
  datatype Done = Done(key: KeyId, request: Id, response: Id, born: Time, at: Time, expires: Time)

  datatype Reply = Reply(key: KeyId, request: Id, response: Option<Id>)

  /** `rows` is the table; `done`, `replies` and `births` are history. `nextId` stands for the next uuid drawn. */
  datatype Store = Store(
    rows: map<KeyId, Row>, clock: Time, pods: map<Id, Pod>, births: map<KeyId, Time>, done: seq<Done>,
    replies: seq<Reply>, nextId: Id)

  datatype Action =
    | Tick(delta: nat)
    | Begin(pod: Id, key: KeyId, request: Id)
    | Lock(pod: Id)
    | Finish(pod: Id, response: Id)
    | Fail(pod: Id)
    | Crash(pod: Id)
    | Purge(now: Time)

  predicate Holds(s: Store, pod: Id) {
    pod in s.pods && s.pods[pod].Holding?
  }

  predicate Enabled(s: Store, a: Action) {
    match a
    case Tick(_) => true
    case Begin(pod, _, _) => pod !in s.pods
    case Lock(pod) => pod in s.pods && s.pods[pod].Clocked?
    case Finish(pod, _) => Holds(s, pod)
    case Fail(pod) => Holds(s, pod)
    case Crash(pod) => pod in s.pods
    case Purge(now) => now <= s.clock
  }

  /** When the use of the key that a successful claim belongs to began. */
  function Birth(s: Store, key: KeyId, now: Time): Time {
    if key in s.rows && key in s.births && now < s.rows[key].expiresAt then s.births[key] else s.clock
  }

  function LockKey(s: Store, pod: Id, terms: Terms): Store
    requires Enabled(s, Lock(pod))
  {
    var p := s.pods[pod];
    var (rows, outcome) := ClaimRow(s.rows, p.key, p.request, p.now, terms, s.nextId);
    match outcome
    case Claimed(id) =>
      var born := Birth(s, p.key, p.now);
      s.(rows := rows,
         births := s.births[p.key := born],
         pods := s.pods[pod := Holding(p.key, p.request, id, born, p.now + terms.lease, rows[p.key].expiresAt)],
         nextId := s.nextId + 1)
    case Replayed(response) => s.(pods := s.pods - {pod}, replies := s.replies + [Reply(p.key, p.request, response)])
    case InProgress => s.(pods := s.pods - {pod})
    case KeyReused => s.(pods := s.pods - {pod})
  }

  /** The work and the record of its response, in one transaction. */
  function FinishWork(s: Store, pod: Id, response: Id): Store
    requires Holds(s, pod)
  {
    var p := s.pods[pod];
    s.(rows := RecordRows(s.rows, p.id, response),
       pods := s.pods - {pod},
       done := s.done + [Done(p.key, p.request, response, p.born, s.clock, p.expires)])
  }

  function Step(s: Store, a: Action, terms: Terms): Store
    requires Enabled(s, a)
  {
    match a
    case Tick(delta) => s.(clock := s.clock + delta)
    case Begin(pod, key, request) => s.(pods := s.pods[pod := Clocked(key, request, s.clock)])
    case Lock(pod) => LockKey(s, pod, terms)
    case Finish(pod, response) => FinishWork(s, pod, response)
    case Fail(pod) => s.(rows := ReleaseRows(s.rows, s.pods[pod].id), pods := s.pods - {pod})
    case Crash(pod) => s.(pods := s.pods - {pod})
    case Purge(now) => s.(rows := PurgeRows(s.rows, now))
  }

  /** A holder whose lease and whose key have not run out. */
  predicate Live(s: Store, pod: Id) {
    Holds(s, pod) && s.clock < s.pods[pod].lease && s.clock < s.pods[pod].expires
  }

  /** The hypothesis of the theorem: whoever finishes or gives up still does so in time. */
  predicate Timely(s: Store, a: Action) {
    match a
    case Finish(pod, _) => Live(s, pod)
    case Fail(pod) => Live(s, pod)
    case _ => true
  }

  predicate TimelyRun(s: Store, run: seq<Action>, terms: Terms)
    decreases |run|
  {
    run == [] || (Enabled(s, run[0]) && Timely(s, run[0]) && TimelyRun(Step(s, run[0], terms), run[1..], terms))
  }

  predicate AnyRun(s: Store, run: seq<Action>, terms: Terms)
    decreases |run|
  {
    run == [] || (Enabled(s, run[0]) && AnyRun(Step(s, run[0], terms), run[1..], terms))
  }

  function Run(s: Store, run: seq<Action>, terms: Terms): Store
    requires AnyRun(s, run, terms)
    decreases |run|
  {
    if run == [] then s else Run(Step(s, run[0], terms), run[1..], terms)
  }

  const START := Store(map[], 0, map[], map[], [], [], 0)

  /** The latest committed work for a key. */
  function LastDone(done: seq<Done>, key: KeyId): Option<Done> {
    if done == [] then None
    else if done[|done| - 1].key == key then Some(done[|done| - 1])
    else LastDone(done[..|done| - 1], key)
  }

  predicate WithinItsUse(d: Done, clock: Time) {
    d.born <= d.at < d.expires && d.at <= clock
  }

  /** One key's work is committed again only by a use of the key that began after the earlier one had expired. */
  predicate Apart(d: Done, e: Done) {
    d.key == e.key ==> d.expires <= e.born
  }

  predicate AtMostOnce(done: seq<Done>, clock: Time) {
    && (forall i {:trigger done[i]} :: 0 <= i < |done| ==> WithinItsUse(done[i], clock))
    && (forall i, j {:trigger done[i], done[j]} :: 0 <= i < j < |done| ==> Apart(done[i], done[j]))
  }

  /** A row is complete exactly when the work of its current use committed, and then it holds that work's request and
      response. */
  predicate RowTells(s: Store, key: KeyId) {
    var last := LastDone(s.done, key);
    if key !in s.rows then last.Some? ==> last.value.expires <= s.clock
    else
      && key in s.births
      && s.births[key] <= s.clock
      && (if s.rows[key].completed then
            && last.Some?
            && last.value.born == s.births[key]
            && last.value.request == s.rows[key].request
            && Some(last.value.response) == s.rows[key].response
            && last.value.expires == s.rows[key].expiresAt
          else last.Some? ==> last.value.expires <= s.births[key])
  }

  ghost predicate AllRowsTell(s: Store) {
    forall key {:trigger RowTells(s, key)} :: RowTells(s, key)
  }

  /** What a caller may rely on. */
  ghost predicate Books(s: Store) {
    AtMostOnce(s.done, s.clock) && AllRowsTell(s)
  }

  predicate ReplyIsTrue(done: seq<Done>, r: Reply) {
    exists i :: 0 <= i < |done| && done[i].key == r.key && done[i].request == r.request
      && r.response == Some(done[i].response)
  }

  predicate RepliesAreTrue(s: Store) {
    forall i {:trigger s.replies[i]} :: 0 <= i < |s.replies| ==> ReplyIsTrue(s.done, s.replies[i])
  }

  predicate RowHasItsOwnId(s: Store, key: KeyId) {
    key in s.rows ==>
      && s.rows[key].id < s.nextId
      && (forall other {:trigger other in s.rows} :: other in s.rows && s.rows[other].id == s.rows[key].id ==>
            other == key)
  }

  ghost predicate Ids(s: Store) {
    forall key {:trigger RowHasItsOwnId(s, key)} :: RowHasItsOwnId(s, key)
  }

  /** The row still is the one the pod claimed. */
  predicate Intact(s: Store, pod: Id)
    requires Holds(s, pod)
  {
    var p := s.pods[pod];
    p.key in s.rows && s.rows[p.key].id == p.id && !s.rows[p.key].completed
    && s.rows[p.key].lockedUntil == Some(p.lease)
  }

  predicate PodFits(s: Store, pod: Id) {
    pod in s.pods ==>
      match s.pods[pod]
      case Clocked(_, _, now) => now <= s.clock
      case Holding(key, request, id, born, lease, expires) =>
        && id < s.nextId
        && born <= s.clock
        && (forall k {:trigger k in s.rows} :: k in s.rows && s.rows[k].id == id ==> k == key)
        && (key in s.rows && s.rows[key].id == id ==>
              && key in s.births
              && (expires <= s.births[key]
                  || (s.rows[key].expiresAt == expires && s.births[key] == born && s.rows[key].request == request)))
  }

  ghost predicate Pods(s: Store) {
    forall pod {:trigger PodFits(s, pod)} :: PodFits(s, pod)
  }

  /** What holds whether or not holders finish in time. */
  ghost predicate Sound(s: Store) {
    Books(s) && RepliesAreTrue(s) && Ids(s) && Pods(s)
  }

  ghost predicate LiveIntact(s: Store) {
    forall pod {:trigger Live(s, pod)} :: Live(s, pod) ==> Intact(s, pod)
  }

  ghost predicate OneHolderPerKey(s: Store) {
    forall p, q {:trigger Live(s, p), Live(s, q)} :: Live(s, p) && Live(s, q) && s.pods[p].key == s.pods[q].key ==>
      p == q
  }

  ghost predicate Inv(s: Store) {
    Sound(s) && LiveIntact(s) && OneHolderPerKey(s)
  }

  lemma {:induction false} LastDoneIsLatest(done: seq<Done>, key: KeyId) returns (m: int)
    ensures LastDone(done, key).None? ==> forall i :: 0 <= i < |done| ==> done[i].key != key
    ensures LastDone(done, key).Some? ==>
              0 <= m < |done| && done[m] == LastDone(done, key).value && done[m].key == key
              && forall i :: m < i < |done| ==> done[i].key != key
  {
    m := |done| - 1;
    if done != [] && done[m].key != key {
      m := LastDoneIsLatest(done[..m], key);
    }
  }

  lemma LastDoneSnoc(done: seq<Done>, d: Done, key: KeyId)
    ensures LastDone(done + [d], key) == if d.key == key then Some(d) else LastDone(done, key)
  {
    assert (done + [d])[..|done|] == done;
  }

  lemma OnceMore(done: seq<Done>, d: Done, clock: Time)
    requires AtMostOnce(done, clock) && WithinItsUse(d, clock)
    ensures AtMostOnce(done + [d], clock) ==
              (LastDone(done, d.key).Some? ==> LastDone(done, d.key).value.expires <= d.born)
  {
    var m := LastDoneIsLatest(done, d.key);
    var longer := done + [d];
    assert forall i :: 0 <= i < |done| ==> longer[i] == done[i];
    assert longer[|done|] == d;
    if LastDone(done, d.key).Some? {
      assert longer[m] == done[m];
      if done[m].expires <= d.born {
        forall i | 0 <= i < |done| ensures Apart(done[i], d) {
          if done[i].key == d.key && i < m {
            assert Apart(done[i], done[m]);
            assert WithinItsUse(done[m], clock);
          }
        }
      } else {
        assert !Apart(longer[m], longer[|done|]);
      }
    }
  }

  // ---------------------------------------------------------------- every step, late ones included

  lemma LaterClock(s: Store, delta: nat)
    requires Sound(s)
    ensures Sound(s.(clock := s.clock + delta))
  {
    var t := s.(clock := s.clock + delta);
    forall key ensures RowTells(t, key) && RowHasItsOwnId(t, key) {
      assert RowTells(s, key) && RowHasItsOwnId(s, key);
    }
    forall pod ensures PodFits(t, pod) {
      assert PodFits(s, pod);
    }
  }

  lemma FewerPods(s: Store, pod: Id)
    requires Sound(s)
    ensures Sound(s.(pods := s.pods - {pod}))
  {
    var t := s.(pods := s.pods - {pod});
    forall key ensures RowTells(t, key) && RowHasItsOwnId(t, key) {
      assert RowTells(s, key) && RowHasItsOwnId(s, key);
    }
    forall q ensures PodFits(t, q) {
      assert PodFits(s, q);
    }
  }

  lemma BeginKeepsSound(s: Store, pod: Id, key: KeyId, request: Id)
    requires Sound(s) && pod !in s.pods
    ensures Sound(s.(pods := s.pods[pod := Clocked(key, request, s.clock)]))
  {
    var t := s.(pods := s.pods[pod := Clocked(key, request, s.clock)]);
    forall k ensures RowTells(t, k) && RowHasItsOwnId(t, k) {
      assert RowTells(s, k) && RowHasItsOwnId(s, k);
    }
    forall q ensures PodFits(t, q) {
      assert PodFits(s, q);
    }
  }

  /** Rows that vanish without having been finished, or after their key ran out, leave the books as true as they
      were. */
  lemma FewerRows(s: Store, rows: map<KeyId, Row>)
    requires Sound(s)
    requires forall k :: k in rows ==> k in s.rows && rows[k] == s.rows[k]
    requires forall k :: k in s.rows && k !in rows ==> !s.rows[k].completed || s.rows[k].expiresAt <= s.clock
    ensures Sound(s.(rows := rows))
  {
    var t := s.(rows := rows);
    forall k ensures RowTells(t, k) && RowHasItsOwnId(t, k) {
      assert RowTells(s, k) && RowHasItsOwnId(s, k);
    }
    forall q ensures PodFits(t, q) {
      assert PodFits(s, q);
    }
  }

  lemma IdsApart(s: Store, key: KeyId)
    requires Ids(s)
    ensures forall k {:trigger k in s.rows} :: k in s.rows ==>
              s.rows[k].id < s.nextId && (key in s.rows && k != key ==> s.rows[k].id != s.rows[key].id)
  {
    assert RowHasItsOwnId(s, key);
    forall k | k in s.rows ensures s.rows[k].id < s.nextId {
      assert RowHasItsOwnId(s, k);
    }
  }

  lemma LockTells(s: Store, pod: Id, terms: Terms)
    requires Sound(s) && Enabled(s, Lock(pod))
    ensures AllRowsTell(LockKey(s, pod, terms)) && Ids(LockKey(s, pod, terms))
    ensures RepliesAreTrue(LockKey(s, pod, terms))
  {
    var t := LockKey(s, pod, terms);
    var key := s.pods[pod].key;
    assert PodFits(s, pod) && RowTells(s, key);
    forall k ensures RowTells(t, k) {
      assert RowTells(s, k);
    }
    IdsApart(s, key);
    forall k ensures RowHasItsOwnId(t, k) {
      assert RowHasItsOwnId(s, k);
    }
    if |t.replies| > |s.replies| {
      var m := LastDoneIsLatest(s.done, key);
      assert ReplyIsTrue(s.done, t.replies[|s.replies|]);
    }
  }

  lemma LockKeepsPods(s: Store, pod: Id, terms: Terms)
    requires Sound(s) && Enabled(s, Lock(pod))
    ensures Pods(LockKey(s, pod, terms))
  {
    var t := LockKey(s, pod, terms);
    var key := s.pods[pod].key;
    assert PodFits(s, pod) && RowTells(s, key);
    IdsApart(s, key);
    forall q ensures PodFits(t, q) {
      assert PodFits(s, q);
    }
  }

  /** What stands between a claim and the end of its work, without a word about leases. */
  predicate Unfinished(s: Store, pod: Id)
    requires Holds(s, pod)
  {
    var p := s.pods[pod];
    s.clock < p.expires && p.key in s.rows && s.rows[p.key].id == p.id && !s.rows[p.key].completed
  }

  lemma FinishTells(s: Store, pod: Id, response: Id)
    requires Sound(s) && Holds(s, pod) && Unfinished(s, pod)
    ensures Books(FinishWork(s, pod, response))
  {
    var t := FinishWork(s, pod, response);
    var p := s.pods[pod];
    var d := Done(p.key, p.request, response, p.born, s.clock, p.expires);
    assert PodFits(s, pod) && RowTells(s, p.key);
    OnceMore(s.done, d, s.clock);
    forall k ensures RowTells(t, k) {
      assert RowTells(s, k);
      LastDoneSnoc(s.done, d, k);
    }
  }

  lemma LateFinishBreaks(s: Store, pod: Id, response: Id)
    requires Sound(s) && Holds(s, pod) && !Unfinished(s, pod)
    ensures !Books(FinishWork(s, pod, response))
  {
    var t := FinishWork(s, pod, response);
    var p := s.pods[pod];
    var d := Done(p.key, p.request, response, p.born, s.clock, p.expires);
    assert t.done[|s.done|] == d;
    assert PodFits(s, pod) && RowTells(s, p.key);
    LastDoneSnoc(s.done, d, p.key);
    if WithinItsUse(d, s.clock) {
      OnceMore(s.done, d, s.clock);
      var m := LastDoneIsLatest(s.done, p.key);
      if p.key in s.rows && s.rows[p.key].id == p.id {
        assert WithinItsUse(s.done[m], s.clock);
        assert !AtMostOnce(t.done, t.clock);
      } else if p.key in s.rows && s.rows[p.key].completed && !(s.done[m].expires <= d.born) {
        assert !AtMostOnce(t.done, t.clock);
      } else {
        if LastDone(s.done, p.key).Some? {
          assert WithinItsUse(s.done[m], s.clock);
        }
        assert !RowTells(t, p.key);
      }
    }
  }

  /** record matches on the claim id alone. In any sound state, finishing keeps the books exactly when the claimed row
      is still there, is not yet complete, and the key has not run out: a guard that record does not have. */
  lemma FinishKeepsBooksIff(s: Store, pod: Id, response: Id)
    requires Sound(s) && Holds(s, pod)
    ensures Books(FinishWork(s, pod, response)) == Unfinished(s, pod)
  {
    if Unfinished(s, pod) {
      FinishTells(s, pod, response);
    } else {
      LateFinishBreaks(s, pod, response);
    }
  }

  lemma FinishKeepsSound(s: Store, pod: Id, response: Id)
    requires Sound(s) && Holds(s, pod) && Unfinished(s, pod)
    ensures Sound(FinishWork(s, pod, response))
  {
    var t := FinishWork(s, pod, response);
    FinishTells(s, pod, response);
    forall i | 0 <= i < |t.replies| ensures ReplyIsTrue(t.done, t.replies[i]) {
      var j :| 0 <= j < |s.done| && s.done[j].key == s.replies[i].key && s.done[j].request == s.replies[i].request
               && s.replies[i].response == Some(s.done[j].response);
      assert t.done[j] == s.done[j];
    }
    forall k ensures RowHasItsOwnId(t, k) {
      assert RowHasItsOwnId(s, k);
    }
    forall q ensures PodFits(t, q) {
      assert PodFits(s, q);
    }
  }

  /** The guard, as a condition on one step: whoever finishes still finds the claim unfinished. Giving up is free. */
  predicate Guarded(s: Store, a: Action) {
    a.Finish? && Holds(s, a.pod) ==> Unfinished(s, a.pod)
  }

  lemma StepKeepsSound(s: Store, a: Action, terms: Terms)
    requires Sound(s) && Enabled(s, a) && Guarded(s, a)
    ensures Sound(Step(s, a, terms))
  {
    match a
    case Tick(delta) => LaterClock(s, delta);
    case Begin(pod, key, request) => BeginKeepsSound(s, pod, key, request);
    case Lock(pod) =>
      LockTells(s, pod, terms);
      LockKeepsPods(s, pod, terms);
    case Finish(pod, response) => FinishKeepsSound(s, pod, response);
    case Fail(pod) =>
      FewerPods(s, pod);
      FewerRows(s.(pods := s.pods - {pod}), ReleaseRows(s.rows, s.pods[pod].id));
    case Crash(pod) => FewerPods(s, pod);
    case Purge(now) => FewerRows(s, PurgeRows(s.rows, now));
  }

  ghost predicate BooksThroughout(s: Store, run: seq<Action>, terms: Terms)
    requires AnyRun(s, run, terms)
    decreases |run|
  {
    Books(s) && (run == [] || BooksThroughout(Step(s, run[0], terms), run[1..], terms))
  }

  ghost predicate GuardedRun(s: Store, run: seq<Action>, terms: Terms)
    requires AnyRun(s, run, terms)
    decreases |run|
  {
    run == [] || (Guarded(s, run[0]) && GuardedRun(Step(s, run[0], terms), run[1..], terms))
  }

  lemma {:induction false} BooksIff(s: Store, run: seq<Action>, terms: Terms)
    requires Sound(s) && AnyRun(s, run, terms)
    ensures BooksThroughout(s, run, terms) == GuardedRun(s, run, terms)
    decreases |run|
  {
    if run != [] {
      var next := Step(s, run[0], terms);
      if Guarded(s, run[0]) {
        StepKeepsSound(s, run[0], terms);
        BooksIff(next, run[1..], terms);
      } else {
        FinishKeepsBooksIff(s, run[0].pod, run[0].response);
        assert !Books(next);
      }
    }
  }

  /** The exact condition, over every run from the start, with late holders, late releases and takeovers: the books are
      true in every state of the run exactly when each finish finds its claim unfinished. */
  lemma AtMostOnceIff(run: seq<Action>, terms: Terms)
    requires AnyRun(START, run, terms)
    ensures BooksThroughout(START, run, terms) == GuardedRun(START, run, terms)
  {
    BooksIff(START, run, terms);
  }

  /** release matches on the claim id too. Giving up spares every rival claim exactly when no other pod still holds an
      unfinished claim under the same id. */
  lemma FailSparesRivalsIff(s: Store, pod: Id, terms: Terms)
    requires Sound(s) && Holds(s, pod)
    ensures var t := Step(s, Fail(pod), terms);
            (forall q :: q != pod && Holds(s, q) && Unfinished(s, q) ==> Unfinished(t, q))
            <==> (forall q :: q != pod && Holds(s, q) && Unfinished(s, q) ==> s.pods[q].id != s.pods[pod].id)
  {
    var t := Step(s, Fail(pod), terms);
    forall q | q != pod && Holds(s, q) && Unfinished(s, q)
      ensures Holds(t, q) && Unfinished(t, q) == (s.pods[q].id != s.pods[pod].id)
    {
    }
  }

  // ---------------------------------------------------------------- steps in time

  /** A pod whose clock reading is old never takes a key over early: the lease, or the key, has really run out. */
  lemma NoEarlyTakeover(s: Store, pod: Id, terms: Terms)
    requires Inv(s) && Enabled(s, Lock(pod))
    requires Holds(LockKey(s, pod, terms), pod)
    ensures var key := s.pods[pod].key;
            key in s.rows ==>
              || s.rows[key].expiresAt <= s.clock
              || (!s.rows[key].completed
                  && (s.rows[key].lockedUntil.Some? ==> s.rows[key].lockedUntil.value <= s.clock))
    ensures forall q :: Live(s, q) ==> s.pods[q].key != s.pods[pod].key
  {
    assert PodFits(s, pod);
    forall q | Live(s, q) ensures s.pods[q].key != s.pods[pod].key {
      assert PodFits(s, q);
      assert RowTells(s, s.pods[q].key);
    }
  }

  lemma LiveIsUnfinished(s: Store, pod: Id)
    requires LiveIntact(s) && Live(s, pod)
    ensures Unfinished(s, pod)
  {
  }

  lemma LockKeepsLive(s: Store, pod: Id, terms: Terms)
    requires Inv(s) && Enabled(s, Lock(pod))
    ensures LiveIntact(LockKey(s, pod, terms)) && OneHolderPerKey(LockKey(s, pod, terms))
  {
    var t := LockKey(s, pod, terms);
    if Holds(t, pod) {
      NoEarlyTakeover(s, pod, terms);
    }
    forall q | q != pod && Live(t, q)
      ensures Live(s, q) && Intact(t, q) && (Holds(t, pod) ==> t.pods[q].key != t.pods[pod].key)
    {
      assert Live(s, q) && Intact(s, q);
    }
  }

  lemma FinishKeepsLive(s: Store, pod: Id, response: Id)
    requires Inv(s) && Live(s, pod)
    ensures LiveIntact(FinishWork(s, pod, response)) && OneHolderPerKey(FinishWork(s, pod, response))
  {
    var t := FinishWork(s, pod, response);
    assert PodFits(s, pod);
    forall q | Live(t, q) ensures Live(s, q) && Intact(t, q) {
      assert Live(s, q) && Intact(s, q);
    }
  }

  lemma FailKeepsLive(s: Store, pod: Id, terms: Terms)
    requires Inv(s) && Live(s, pod)
    ensures LiveIntact(Step(s, Fail(pod), terms)) && OneHolderPerKey(Step(s, Fail(pod), terms))
  {
    var t := Step(s, Fail(pod), terms);
    assert PodFits(s, pod);
    forall q | Live(t, q) ensures Live(s, q) && Intact(t, q) {
      assert Live(s, q) && Intact(s, q);
    }
  }

  lemma PurgeKeepsLive(s: Store, now: Time, terms: Terms)
    requires Inv(s) && now <= s.clock
    ensures LiveIntact(Step(s, Purge(now), terms)) && OneHolderPerKey(Step(s, Purge(now), terms))
  {
    var t := Step(s, Purge(now), terms);
    forall q | Live(t, q) ensures Live(s, q) && Intact(t, q) {
      assert Live(s, q) && Intact(s, q) && PodFits(s, q);
      assert RowTells(s, s.pods[q].key);
    }
  }

  lemma QuietKeepsLive(s: Store, a: Action, terms: Terms)
    requires Inv(s) && Enabled(s, a) && (a.Tick? || a.Begin? || a.Crash?)
    ensures LiveIntact(Step(s, a, terms)) && OneHolderPerKey(Step(s, a, terms))
  {
    var t := Step(s, a, terms);
    forall q | Live(t, q) ensures Live(s, q) && Intact(t, q) {
      assert Live(s, q) && Intact(s, q);
    }
  }

  lemma StepKeepsInv(s: Store, a: Action, terms: Terms)
    requires Inv(s) && Enabled(s, a) && Timely(s, a)
    ensures Guarded(s, a) && Inv(Step(s, a, terms))
  {
    if a.Finish? {
      LiveIsUnfinished(s, a.pod);
    }
    StepKeepsSound(s, a, terms);
    match a
    case Lock(pod) => LockKeepsLive(s, pod, terms);
    case Finish(pod, response) => FinishKeepsLive(s, pod, response);
    case Fail(pod) => FailKeepsLive(s, pod, terms);
    case Purge(now) => PurgeKeepsLive(s, now, terms);
    case _ => QuietKeepsLive(s, a, terms);
  }

  lemma {:induction false} RunKeepsInv(s: Store, run: seq<Action>, terms: Terms)
    requires Inv(s) && TimelyRun(s, run, terms)
    ensures AnyRun(s, run, terms) && GuardedRun(s, run, terms) && Inv(Run(s, run, terms))
    decreases |run|
  {
    if run != [] {
      StepKeepsInv(s, run[0], terms);
      RunKeepsInv(Step(s, run[0], terms), run[1..], terms);
    }
  }

  /** Any number of pods, any leases and lifetimes, any crashes, takeovers and purges: holders that finish or give up in
      time meet the exact condition, and then a key has one live holder. */
  lemma AtMostOncePerKey(run: seq<Action>, terms: Terms)
    requires TimelyRun(START, run, terms)
    ensures AnyRun(START, run, terms) && GuardedRun(START, run, terms)
    ensures Books(Run(START, run, terms))
    ensures RepliesAreTrue(Run(START, run, terms))
    ensures OneHolderPerKey(Run(START, run, terms))
  {
    RunKeepsInv(START, run, terms);
  }

  // ---------------------------------------------------------------- how long a key can be held up

  /** A row expires no later than one lifetime after its use began, and blocks no longer than one lease from now. */
  predicate RowRunsOut(s: Store, key: KeyId, terms: Terms) {
    key in s.rows ==>
      && key in s.births && s.births[key] <= s.clock
      && s.rows[key].expiresAt <= s.births[key] + terms.ttl
      && (s.rows[key].lockedUntil.Some? ==> s.rows[key].lockedUntil.value <= s.clock + terms.lease)
  }

  ghost predicate AllRunOut(s: Store, terms: Terms) {
    && (forall key {:trigger RowRunsOut(s, key, terms)} :: RowRunsOut(s, key, terms))
    && ReadingsArePast(s)
  }

  lemma StepKeepsAllRunOut(s: Store, a: Action, terms: Terms)
    requires AllRunOut(s, terms) && Enabled(s, a)
    ensures AllRunOut(Step(s, a, terms), terms)
  {
    var t := Step(s, a, terms);
    forall key ensures RowRunsOut(t, key, terms) {
      assert RowRunsOut(s, key, terms);
    }
  }

  /** Late holders included: a takeover prolongs the lease but never the key, so no key outlives its lifetime, and a pod
      that crashes holds a key up for one lease at most. */
  lemma {:induction false} KeysRunOut(s: Store, run: seq<Action>, terms: Terms)
    requires AllRunOut(s, terms) && AnyRun(s, run, terms)
    ensures AllRunOut(Run(s, run, terms), terms)
    decreases |run|
  {
    if run != [] {
      StepKeepsAllRunOut(s, run[0], terms);
      KeysRunOut(Step(s, run[0], terms), run[1..], terms);
    }
  }

  // ---------------------------------------------------------------- how long a key is kept for its request

  /** The key's row is this claim's: its id, its request, and the end of its lifetime. */
  predicate Belongs(s: Store, key: KeyId, id: Id, request: Id, end: Time) {
    key in s.rows && s.rows[key].id == id && s.rows[key].request == request && s.rows[key].expiresAt == end
  }

  predicate ReadingsArePast(s: Store) {
    forall pod {:trigger pod in s.pods} :: pod in s.pods && s.pods[pod].Clocked? ==> s.pods[pod].now <= s.clock
  }

  /** Some holder of the claim gives it up. */
  predicate GivesUp(s: Store, a: Action, id: Id) {
    a.Fail? && Holds(s, a.pod) && s.pods[a.pod].id == id
  }

  predicate NobodyGivesUp(s: Store, run: seq<Action>, id: Id, terms: Terms)
    requires AnyRun(s, run, terms)
    decreases |run|
  {
    run == [] || (!GivesUp(s, run[0], id) && NobodyGivesUp(Step(s, run[0], terms), run[1..], id, terms))
  }

  lemma StepKeepsClaim(s: Store, a: Action, key: KeyId, id: Id, request: Id, end: Time, terms: Terms)
    requires Enabled(s, a) && Belongs(s, key, id, request, end) && ReadingsArePast(s)
    requires !GivesUp(s, a, id) && s.clock < end
    ensures Belongs(Step(s, a, terms), key, id, request, end) && ReadingsArePast(Step(s, a, terms))
  {
  }

  lemma {:induction false} ClockRises(s: Store, run: seq<Action>, terms: Terms)
    requires AnyRun(s, run, terms)
    ensures s.clock <= Run(s, run, terms).clock
    decreases |run|
  {
    if run != [] {
      ClockRises(Step(s, run[0], terms), run[1..], terms);
    }
  }

  lemma {:induction false} RunKeepsClaim(s: Store, run: seq<Action>, key: KeyId, id: Id, request: Id, end: Time,
                                         terms: Terms)
    requires AnyRun(s, run, terms) && Belongs(s, key, id, request, end) && ReadingsArePast(s)
    requires NobodyGivesUp(s, run, id, terms) && Run(s, run, terms).clock < end
    ensures Belongs(Run(s, run, terms), key, id, request, end) && ReadingsArePast(Run(s, run, terms))
    decreases |run|
  {
    if run != [] {
      ClockRises(s, run, terms);
      StepKeepsClaim(s, run[0], key, id, request, end, terms);
      RunKeepsClaim(Step(s, run[0], terms), run[1..], key, id, request, end, terms);
    }
  }

  /** A pod has locked a key that was free at the reading it took. For one lifetime from that reading, whatever runs,
      late finishes, crashes, takeovers and purges included, the key is kept for its request unless a holder of the
      claim gives up: any other request is refused without effect, however stale its own reading. */
  lemma ClaimStands(s: Store, pod: Id, run: seq<Action>, terms: Terms, asked: Id, reading: Time, newId: Id)
    requires Enabled(s, Lock(pod)) && ReadingsArePast(s)
    requires var p := s.pods[pod]; p.key !in s.rows || s.rows[p.key].expiresAt <= p.now
    requires AnyRun(Step(s, Lock(pod), terms), run, terms)
    requires var p, t := s.pods[pod], Step(s, Lock(pod), terms);
             && Holds(t, pod) && NobodyGivesUp(t, run, t.pods[pod].id, terms)
             && Run(t, run, terms).clock < p.now + terms.ttl
             && asked != p.request && reading <= Run(t, run, terms).clock
    ensures var rows, key := Run(Step(s, Lock(pod), terms), run, terms).rows, s.pods[pod].key;
            ClaimRow(rows, key, asked, reading, terms, newId) == (rows, KeyReused)
  {
    var p, t := s.pods[pod], Step(s, Lock(pod), terms);
    RunKeepsClaim(t, run, p.key, t.pods[pod].id, p.request, p.now + terms.ttl, terms);
  }

  /** Whoever asks again for work that is done gets its response: a pod that finds its request's key complete and, at
      its reading, unexpired is handed what the last committed work of the key answered, and holds nothing. */
  lemma AskingAgainIsAnswered(s: Store, pod: Id, terms: Terms)
    requires Books(s) && Enabled(s, Lock(pod))
    requires var p := s.pods[pod];
             && p.key in s.rows && s.rows[p.key].completed
             && s.rows[p.key].request == p.request && p.now < s.rows[p.key].expiresAt
    ensures var p, t := s.pods[pod], Step(s, Lock(pod), terms);
            && LastDone(s.done, p.key).Some? && LastDone(s.done, p.key).value.request == p.request
            && t.replies == s.replies + [Reply(p.key, p.request, Some(LastDone(s.done, p.key).value.response))]
            && t.rows == s.rows && t.done == s.done && pod !in t.pods
  {
    assert RowTells(s, s.pods[pod].key);
  }

  // ---------------------------------------------------------------- why finishing in time is needed

  lemma {:induction false} RunThen(s: Store, run: seq<Action>, rest: seq<Action>, terms: Terms)
    requires AnyRun(s, run, terms) && AnyRun(Run(s, run, terms), rest, terms)
    ensures AnyRun(s, run + rest, terms) && Run(s, run + rest, terms) == Run(Run(s, run, terms), rest, terms)
    decreases |run|
  {
    if run == [] {
      assert run + rest == rest;
    } else {
      RunThen(Step(s, run[0], terms), run[1..], rest, terms);
      assert (run + rest)[1..] == run[1..] + rest;
    }
  }

  lemma TwoSteps(s: Store, a: Action, b: Action, terms: Terms)
    requires Enabled(s, a) && Enabled(Step(s, a, terms), b)
    ensures AnyRun(s, [a, b], terms) && Run(s, [a, b], terms) == Step(Step(s, a, terms), b, terms)
  {
    assert [a, b][1..] == [b] && [b][1..] == [];
    var t := Step(s, a, terms);
    assert AnyRun(t, [b], terms);
    assert Run(t, [b], terms) == Run(Step(t, b, terms), [], terms) == Step(t, b, terms);
  }

  /** A lease of ten and a lifetime of a hundred. */
  const SHORT := Terms(10, 100)

  /** Pod 1 outlives its lease and pod 2 takes over. */
  const TAKEOVER := [Begin(1, 7, 5), Lock(1)] + [Tick(10), Begin(2, 7, 5)] + [Lock(2), Tick(0)]

  const TAKEN_OVER :=
    Store(map[7 := Row(0, 5, None, Some(20), false, 100)], 10,
          map[1 := Holding(7, 5, 0, 0, 10, 100), 2 := Holding(7, 5, 0, 0, 20, 100)], map[7 := 0], [], [], 2)

  lemma TakeoverRuns()
    ensures AnyRun(START, TAKEOVER, SHORT) && Run(START, TAKEOVER, SHORT) == TAKEN_OVER
  {
    TwoSteps(START, Begin(1, 7, 5), Lock(1), SHORT);
    var s := Run(START, [Begin(1, 7, 5), Lock(1)], SHORT);
    assert s == Store(map[7 := Row(0, 5, None, Some(10), false, 100)], 0, map[1 := Holding(7, 5, 0, 0, 10, 100)],
                      map[7 := 0], [], [], 1);
    TwoSteps(s, Tick(10), Begin(2, 7, 5), SHORT);
    RunThen(START, [Begin(1, 7, 5), Lock(1)], [Tick(10), Begin(2, 7, 5)], SHORT);
    var t := Run(s, [Tick(10), Begin(2, 7, 5)], SHORT);
    TwoSteps(t, Lock(2), Tick(0), SHORT);
    RunThen(START, [Begin(1, 7, 5), Lock(1)] + [Tick(10), Begin(2, 7, 5)], [Lock(2), Tick(0)], SHORT);
    assert Run(t, [Lock(2), Tick(0)], SHORT).rows == TAKEN_OVER.rows;
    assert Run(t, [Lock(2), Tick(0)], SHORT).pods == TAKEN_OVER.pods;
    assert Run(t, [Lock(2), Tick(0)], SHORT).births == TAKEN_OVER.births;
  }

  /** Two commits of one key while the first still counts. */
  predicate CommitsTwice(s: Store) {
    |s.done| == 2 && s.done[0].key == s.done[1].key && s.done[1].at < s.done[0].expires
  }

  /** Without the hypothesis: both the old holder and the one that took over finish. */
  lemma LateFinishCommitsTwice()
    ensures var run := TAKEOVER + [Finish(2, 52), Finish(1, 51)];
            AnyRun(START, run, SHORT) && CommitsTwice(Run(START, run, SHORT))
  {
    TakeoverRuns();
    TwoSteps(TAKEN_OVER, Finish(2, 52), Finish(1, 51), SHORT);
    RunThen(START, TAKEOVER, [Finish(2, 52), Finish(1, 51)], SHORT);
  }

  /** Without the hypothesis for giving up: the old holder deletes the claim that was taken over, and a third pod starts
      afresh. */
  lemma LateFailCommitsTwice()
    ensures var run := TAKEOVER + [Fail(1), Begin(3, 7, 5)] + [Lock(3), Finish(3, 53)] + [Finish(2, 52), Tick(0)];
            AnyRun(START, run, SHORT) && CommitsTwice(Run(START, run, SHORT))
  {
    TakeoverRuns();
    TwoSteps(TAKEN_OVER, Fail(1), Begin(3, 7, 5), SHORT);
    RunThen(START, TAKEOVER, [Fail(1), Begin(3, 7, 5)], SHORT);
    var s := Run(TAKEN_OVER, [Fail(1), Begin(3, 7, 5)], SHORT);
    assert s.rows == map[];
    TwoSteps(s, Lock(3), Finish(3, 53), SHORT);
    RunThen(START, TAKEOVER + [Fail(1), Begin(3, 7, 5)], [Lock(3), Finish(3, 53)], SHORT);
    var t := Run(s, [Lock(3), Finish(3, 53)], SHORT);
    TwoSteps(t, Finish(2, 52), Tick(0), SHORT);
    RunThen(START, TAKEOVER + [Fail(1), Begin(3, 7, 5)] + [Lock(3), Finish(3, 53)], [Finish(2, 52), Tick(0)], SHORT);
  }
}
