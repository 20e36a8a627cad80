/** Row locks of the stock transactions: what each one locks, in which order, and why they cannot deadlock. */
module Locks {
  // Every transaction locks stock items in ascending order, then hold rows; commit and release lock their items once
  // more. A lock request waits while another transaction owns the row. Locks go when the transaction commits or rolls
  // back.

  import opened Common

  type Item = Id
  type HoldId = Id
  type Ship = Id
  type Txn = Id

  /** The item sets that a shipment's reserves may be for. */
  type Requests = map<Ship, set<set<Item>>>

  datatype Hold = Hold(ship: Ship, item: Item, held: bool)

  /** `Settling` is commit and release; `Adjusting` locks its item only. */
  datatype Kind = Reserving(ship: Ship) | Confirming(ship: Ship) | Settling(ship: Ship) | Sweeping | Adjusting

  /** `taken` counts the rows of the running query that are locked already. */
  datatype Phase =
    | LockingItems
    | LockingHolds(found: seq<HoldId>, taken: nat)
    | Relocking(found: seq<HoldId>, again: seq<Item>, taken: nat)

  /** `want` is the item query of a transaction and `got` how far it has come. */
  datatype Work = Work(kind: Kind, want: seq<Item>, got: nat, phase: Phase)

  /** `sku` is the item table as far as it matters here. */
  datatype World = World(sku: map<Item, Id>, holds: map<HoldId, Hold>, itemOwner: map<Item, Txn>,
                         holdOwner: map<HoldId, Txn>,
                         work: map<Txn, Work>)

  datatype Lock = OnItem(item: Item) | OnHold(hold: HoldId)

  datatype Action =
    | Start(txn: Txn, kind: Kind, want: seq<Item>)
    | LockNext(txn: Txn)
    | Look(txn: Txn, found: seq<HoldId>)
    | Relook(txn: Txn, again: seq<Item>)
    | Finish(txn: Txn, ids: seq<HoldId>)
    | Abort(txn: Txn)

  predicate Ascending(s: seq<int>) {
    forall j, k :: 0 <= j < k < |s| ==> s[j] < s[k]
  }

  function Range(s: seq<int>): set<int> { set x | x in s }

  function ByShipment(kind: Kind): Option<Ship> {
    if kind.Confirming? || kind.Settling? then Some(kind.ship) else None
  }

  /** The row a transaction asks for next. */
  function Next(w: Work): Option<Lock> {
    match w.phase
    case LockingItems => if w.got < |w.want| then Some(OnItem(w.want[w.got])) else None
    case LockingHolds(found, taken) => if taken < |found| then Some(OnHold(found[taken])) else None
    case Relocking(_, again, taken) => if taken < |again| then Some(OnItem(again[taken])) else None
  }

  function Owner(s: World, lock: Lock): Option<Txn> {
    match lock
    case OnItem(i) => if i in s.itemOwner then Some(s.itemOwner[i]) else None
    case OnHold(h) => if h in s.holdOwner then Some(s.holdOwner[h]) else None
  }

  /** t's next row is locked by u. */
  predicate Waits(s: World, t: Txn, u: Txn) {
    t in s.work && t != u && Next(s.work[t]).Some? && Owner(s, Next(s.work[t]).value) == Some(u)
  }

  /** The shipment has a row for the SKU, what uq_reservation_shipment_sku speaks of. */
  predicate RowFor(sku: map<Item, Id>, holds: map<HoldId, Hold>, ship: Ship, k: Id) {
    exists h :: h in holds && holds[h].ship == ship && holds[h].item in sku && sku[holds[h].item] == k
  }

  predicate DistinctSkus(sku: map<Item, Id>, want: seq<Item>) {
    && (forall j :: 0 <= j < |want| ==> want[j] in sku)
    && forall j, k :: 0 <= j < k < |want| ==> sku[want[j]] != sku[want[k]]
  }

  function HeldItems(holds: map<HoldId, Hold>, ship: Ship): set<Item> {
    set h | h in holds && holds[h].ship == ship && holds[h].held :: holds[h].item
  }

  function HeldOf(holds: map<HoldId, Hold>, ship: Ship): set<HoldId> {
    set h | h in holds && holds[h].ship == ship && holds[h].held
  }

  predicate Done(w: Work) {
    Next(w).None? && (w.phase.LockingItems? ==> w.kind.Adjusting?)
  }

  ghost predicate Enabled(s: World, a: Action) {
    match a
    case Start(t, kind, want) =>
      && t !in s.work && Ascending(want)
      && (kind.Reserving? ==> forall h :: h in s.holds ==> s.holds[h].ship != kind.ship)
      && (ByShipment(kind).Some? ==> want != [] && Range(want) == HeldItems(s.holds, kind.ship))
      && (kind.Adjusting? ==> |want| <= 1)
    case LockNext(t) =>
      t in s.work && Next(s.work[t]).Some? && forall u :: !Waits(s, t, u)
    case Look(t, found) =>
      && t in s.work && s.work[t].phase.LockingItems? && Next(s.work[t]).None? && !s.work[t].kind.Adjusting?
      && Ascending(found)
      && (match ByShipment(s.work[t].kind)
          case Some(ship) => Range(found) == HeldOf(s.holds, ship)
          case None => forall h :: h in found ==> h in s.holds && s.holds[h].held && s.holds[h].item in s.work[t].want)
    case Relook(t, again) =>
      && t in s.work && s.work[t].phase.LockingHolds? && Next(s.work[t]).None? && s.work[t].kind.Settling?
      && Ascending(again)
      && forall i :: i in again <==> exists h :: h in s.work[t].phase.found && h in s.holds && s.holds[h].item == i
    case Finish(t, ids) =>
      && t in s.work && Done(s.work[t])
      && (if s.work[t].kind.Reserving? then
            && |ids| == |s.work[t].want| > 0 && DistinctSkus(s.sku, s.work[t].want)
            && (forall j, k :: 0 <= j < k < |ids| ==> ids[j] != ids[k])
            && (forall j :: 0 <= j < |ids| ==>
                  ids[j] !in s.holds && !RowFor(s.sku, s.holds, s.work[t].kind.ship, s.sku[s.work[t].want[j]]))
          else ids == [])
      && (s.work[t].kind.Settling? && s.work[t].phase.LockingHolds? ==> s.work[t].phase.found == [])
    case Abort(t) => t in s.work
  }

  function Advance(w: Work): Work {
    match w.phase
    case LockingItems => w.(got := w.got + 1)
    case LockingHolds(found, taken) => w.(phase := LockingHolds(found, taken + 1))
    case Relocking(found, again, taken) => w.(phase := Relocking(found, again, taken + 1))
  }

  function Release<K>(owner: map<K, Txn>, t: Txn): map<K, Txn> {
    map k | k in owner && owner[k] != t :: owner[k]
  }

  function Gone(s: World, t: Txn): World {
    s.(itemOwner := Release(s.itemOwner, t), holdOwner := Release(s.holdOwner, t), work := s.work - {t})
  }

  function Found(w: Work): seq<HoldId> {
    if w.phase.LockingItems? then [] else w.phase.found
  }

  /** The hold table a transaction commits: confirm leaves statuses alone, the others free or consume what they
      found. */
  function Written(s: World, t: Txn, ids: seq<HoldId>): map<HoldId, Hold>
    requires t in s.work
    requires s.work[t].kind.Reserving? ==> |ids| == |s.work[t].want|
  {
    var w := s.work[t];
    var closed := Closed(s.holds, if w.kind.Confirming? then [] else Found(w));
    if w.kind.Reserving? then closed + Placed(w.kind.ship, w.want, ids) else closed
  }

  function Closed(holds: map<HoldId, Hold>, found: seq<HoldId>): map<HoldId, Hold> {
    map h | h in holds :: if h in found then holds[h].(held := false) else holds[h]
  }

  function Placed(ship: Ship, want: seq<Item>, ids: seq<HoldId>): (placed: map<HoldId, Hold>)
    requires |ids| == |want|
    ensures forall h :: h in placed <==> h in ids
    ensures forall h :: h in placed ==>
              exists k :: 0 <= k < |ids| && ids[k] == h && placed[h] == Hold(ship, want[k], true)
    ensures (forall j, k :: 0 <= j < k < |ids| ==> ids[j] != ids[k]) ==>
              forall k :: 0 <= k < |ids| ==> placed[ids[k]] == Hold(ship, want[k], true)
  {
    if ids == [] then map[]
    else
      var n := |ids| - 1;
      Placed(ship, want[..n], ids[..n])[ids[n] := Hold(ship, want[n], true)]
  }

  function Step(s: World, a: Action): World
    requires Enabled(s, a)
  {
    match a
    case Start(t, kind, want) => s.(work := s.work[t := Work(kind, want, 0, LockingItems)])
    case LockNext(t) =>
      var moved := s.(work := s.work[t := Advance(s.work[t])]);
      (match Next(s.work[t]).value
       case OnItem(i) => moved.(itemOwner := s.itemOwner[i := t])
       case OnHold(h) => moved.(holdOwner := s.holdOwner[h := t]))
    case Look(t, found) => s.(work := s.work[t := s.work[t].(phase := LockingHolds(found, 0))])
    case Relook(t, again) => s.(work := s.work[t := s.work[t].(phase := Relocking(s.work[t].phase.found, again, 0))])
    case Finish(t, ids) => Gone(s.(holds := Written(s, t, ids)), t)
    case Abort(t) => Gone(s, t)
  }

  /** Every reserve that goes through is for one of its shipment's requests. */
  predicate Requested(lines: Requests, s: World, a: Action) {
    a.Finish? && a.txn in s.work && s.work[a.txn].kind.Reserving? ==>
      s.work[a.txn].kind.ship in lines && Range(s.work[a.txn].want) in lines[s.work[a.txn].kind.ship]
  }

  predicate Meet(sku: map<Item, Id>, a: set<Item>, b: set<Item>) {
    exists i, j :: i in a && j in b && i in sku && j in sku && sku[i] == sku[j]
  }

  /** The hypothesis: any two requests of one shipment share a SKU. Requests that repeat each other do. */
  predicate Meets(sku: map<Item, Id>, lines: Requests) {
    forall ship, a, b {:trigger a in lines[ship], b in lines[ship]} ::
      ship in lines && a in lines[ship] && b in lines[ship] ==> Meet(sku, a, b)
  }

  // ---------------------------------------------------------------- what every reachable world keeps

  /** A transaction owns exactly the items its query has got so far, and from the hold query on all of them. */
  predicate ItemsFit(s: World, t: Txn) {
    t in s.work ==>
      var w := s.work[t];
      && Ascending(w.want) && w.got <= |w.want|
      && (forall k :: 0 <= k < w.got ==> w.want[k] in s.itemOwner && s.itemOwner[w.want[k]] == t)
      && (!w.phase.LockingItems? ==> w.got == |w.want|)
  }

  predicate ItemOwned(s: World, i: Item) {
    i in s.itemOwner ==> s.itemOwner[i] in s.work && i in s.work[s.itemOwner[i]].want
                         && s.work[s.itemOwner[i]].got <= |s.work[s.itemOwner[i]].want|
                         && i in s.work[s.itemOwner[i]].want[..s.work[s.itemOwner[i]].got]
  }

  /** Whoever owns a hold row is past its item query and owns the hold's item. */
  predicate HoldOwned(s: World, h: HoldId) {
    h in s.holdOwner ==>
      && s.holdOwner[h] in s.work && !s.work[s.holdOwner[h]].phase.LockingItems?
      && h in s.holds && s.holds[h].item in s.work[s.holdOwner[h]].want
  }

  predicate IsHeldFor(holds: map<HoldId, Hold>, h: HoldId, ship: Ship) {
    h in holds && holds[h].ship == ship && holds[h].held
  }

  /** What a transaction found is still held, and sits on items it owns; by shipment, it still is all that is held. */
  ghost predicate FoundFits(s: World, t: Txn) {
    t in s.work && !s.work[t].phase.LockingItems? ==>
      && !s.work[t].kind.Adjusting?
      && (forall h :: h in s.work[t].phase.found ==>
            h in s.holds && s.holds[h].held && s.holds[h].item in s.work[t].want)
      && (s.work[t].phase.Relocking? ==> forall i :: i in s.work[t].phase.again ==> i in s.work[t].want)
      && (ByShipment(s.work[t].kind).Some? ==>
            forall h :: h in s.work[t].phase.found <==> IsHeldFor(s.holds, h, s.work[t].kind.ship))
  }

  predicate HasRowOf(sku: map<Item, Id>, holds: map<HoldId, Hold>, ship: Ship, request: set<Item>) {
    exists i :: i in request && i in sku && RowFor(sku, holds, ship, sku[i])
  }

  /** Once a shipment has rows, each of its requests has a row already, so no later reserve goes through. */
  predicate RowsFull(lines: Requests, s: World, h: HoldId) {
    h in s.holds ==>
      && s.holds[h].ship in lines && s.holds[h].item in s.sku
      && forall r :: r in lines[s.holds[h].ship] ==> HasRowOf(s.sku, s.holds, s.holds[h].ship, r)
  }

  /** The items read without a lock still cover the shipment's held rows. */
  predicate PlanCovers(s: World, t: Txn) {
    t in s.work && ByShipment(s.work[t].kind).Some? ==>
      && (exists h :: h in s.holds && s.holds[h].ship == s.work[t].kind.ship)
      && forall h :: h in s.holds && s.holds[h].ship == s.work[t].kind.ship && s.holds[h].held ==>
           s.holds[h].item in s.work[t].want
  }

  ghost predicate Inv(lines: Requests, s: World) {
    && (forall t {:trigger ItemsFit(s, t)} :: ItemsFit(s, t))
    && (forall i {:trigger ItemOwned(s, i)} :: ItemOwned(s, i))
    && (forall h {:trigger HoldOwned(s, h)} :: HoldOwned(s, h))
    && (forall t {:trigger FoundFits(s, t)} :: FoundFits(s, t))
    && (forall h {:trigger RowsFull(lines, s, h)} :: RowsFull(lines, s, h))
    && (forall t {:trigger PlanCovers(s, t)} :: PlanCovers(s, t))
  }

  /** An item has one owner, so two transactions past it are one. */
  lemma ItemOwnersAgree(s: World, t: Txn, u: Txn, i: Item)
    requires ItemsFit(s, t) && ItemsFit(s, u) && t in s.work && u in s.work
    requires i in s.work[t].want && s.work[t].got == |s.work[t].want|
    requires i in s.work[u].want && s.work[u].got == |s.work[u].want|
    ensures t == u
  {
  }

  /** No transaction ever waits for a hold row, or for its items a second time: owning them already keeps rivals
      away. */
  lemma NobodyWaitsOnHolds(lines: Requests, s: World, t: Txn)
    requires Inv(lines, s) && t in s.work && !s.work[t].phase.LockingItems?
    ensures forall u :: !Waits(s, t, u)
  {
    assert ItemsFit(s, t) && FoundFits(s, t);
    if s.work[t].phase.LockingHolds? && Next(s.work[t]).Some? {
      var h := s.work[t].phase.found[s.work[t].phase.taken];
      assert HoldOwned(s, h);
      if h in s.holdOwner {
        assert ItemsFit(s, s.holdOwner[h]);
        ItemOwnersAgree(s, t, s.holdOwner[h], s.holds[h].item);
      }
    } else if Next(s.work[t]).Some? {
      assert s.work[t].phase.again[s.work[t].phase.taken] in s.work[t].want;
    }
  }

  lemma StartInv(lines: Requests, sku: map<Item, Id>)
    ensures Inv(lines, Idle(sku))
  {
  }

  lemma StartKeepsInv(lines: Requests, s: World, t: Txn, kind: Kind, want: seq<Item>)
    requires Inv(lines, s) && Enabled(s, Start(t, kind, want))
    ensures Inv(lines, Step(s, Start(t, kind, want)))
  {
    var after := Step(s, Start(t, kind, want));
    forall u ensures ItemsFit(after, u) && FoundFits(after, u) {
      assert ItemsFit(s, u) && FoundFits(s, u);
    }
    forall i ensures ItemOwned(after, i) {
      assert ItemOwned(s, i);
    }
    forall h ensures HoldOwned(after, h) && RowsFull(lines, after, h) {
      assert HoldOwned(s, h) && RowsFull(lines, s, h);
    }
    forall u ensures PlanCovers(after, u) {
      assert PlanCovers(s, u);
      if u == t && ByShipment(kind).Some? {
        assert want[0] in Range(want);
        forall h | h in s.holds && s.holds[h].ship == kind.ship && s.holds[h].held ensures s.holds[h].item in want {
          assert s.holds[h].item in HeldItems(s.holds, kind.ship);
        }
      }
    }
  }

  lemma NextIsFree(s: World, t: Txn)
    requires Enabled(s, LockNext(t))
    ensures Owner(s, Next(s.work[t]).value).Some? ==> Owner(s, Next(s.work[t]).value).value == t
  {
    var lock := Next(s.work[t]).value;
    if Owner(s, lock).Some? {
      assert !Waits(s, t, Owner(s, lock).value);
    }
  }

  lemma LockKeepsFit(s: World, t: Txn, u: Txn)
    requires Enabled(s, LockNext(t)) && ItemsFit(s, t) && FoundFits(s, t) && ItemsFit(s, u)
    ensures ItemsFit(Step(s, LockNext(t)), u)
  {
    NextIsFree(s, t);
    var after := Step(s, LockNext(t));
    if u in s.work {
      assert after.work[u].want == s.work[u].want;
      forall k | 0 <= k < after.work[u].got
        ensures after.work[u].want[k] in after.itemOwner && after.itemOwner[after.work[u].want[k]] == u
      {
        assert k < s.work[u].got || u == t;
      }
    }
  }

  lemma LockKeepsOwned(s: World, t: Txn, i: Item)
    requires Enabled(s, LockNext(t)) && ItemsFit(s, t) && FoundFits(s, t) && ItemOwned(s, i)
    ensures ItemOwned(Step(s, LockNext(t)), i)
  {
    NextIsFree(s, t);
    TakeOneMore(s.work[t].want, s.work[t].got);
  }

  lemma LockKeepsInv(lines: Requests, s: World, t: Txn)
    requires Inv(lines, s) && Enabled(s, LockNext(t))
    ensures Inv(lines, Step(s, LockNext(t)))
  {
    var after := Step(s, LockNext(t));
    assert ItemsFit(s, t) && FoundFits(s, t);
    forall u ensures ItemsFit(after, u) {
      assert ItemsFit(s, u);
      LockKeepsFit(s, t, u);
    }
    forall i ensures ItemOwned(after, i) {
      assert ItemOwned(s, i);
      LockKeepsOwned(s, t, i);
    }
    forall u ensures FoundFits(after, u) && PlanCovers(after, u) {
      assert FoundFits(s, u) && PlanCovers(s, u);
      LockKeepsQueries(s, t, u);
    }
    forall h ensures HoldOwned(after, h) && RowsFull(lines, after, h) {
      assert HoldOwned(s, h) && RowsFull(lines, s, h);
    }
  }

  lemma LockKeepsQueries(s: World, t: Txn, u: Txn)
    requires Enabled(s, LockNext(t)) && FoundFits(s, u) && PlanCovers(s, u)
    ensures FoundFits(Step(s, LockNext(t)), u) && PlanCovers(Step(s, LockNext(t)), u)
  {
    var after := Step(s, LockNext(t));
    assert after.holds == s.holds && (u in after.work <==> u in s.work);
    if u in s.work {
      var v, w := after.work[u], s.work[u];
      assert v.kind == w.kind && v.want == w.want && (v.phase.LockingItems? <==> w.phase.LockingItems?);
      assert !w.phase.LockingItems? ==> v.phase.found == w.phase.found;
    }
  }

  lemma TakeOneMore(want: seq<Item>, got: nat)
    ensures got < |want| ==> want[..got + 1] == want[..got] + [want[got]]
    ensures got == |want| ==> want[..got] == want
  {
  }

  /** Reading holds under the item locks finds rows on locked items only: the read without a lock was early, not
      wrong. */
  lemma FoundIsCovered(lines: Requests, s: World, t: Txn, found: seq<HoldId>)
    requires Inv(lines, s) && Enabled(s, Look(t, found))
    ensures forall h :: h in found ==> h in s.holds && s.holds[h].held && s.holds[h].item in s.work[t].want
    ensures forall h :: h in found ==> s.holds[h].item in s.itemOwner && s.itemOwner[s.holds[h].item] == t
    ensures ByShipment(s.work[t].kind).Some? ==> forall h :: h in found <==> IsHeldFor(s.holds, h, s.work[t].kind.ship)
  {
    assert PlanCovers(s, t) && ItemsFit(s, t);
    forall h | h in found ensures h in s.holds && s.holds[h].held && s.holds[h].item in s.work[t].want {
      if ByShipment(s.work[t].kind).Some? {
        assert h in Range(found);
      }
    }
    if ByShipment(s.work[t].kind).Some? {
      forall h ensures h in found <==> IsHeldFor(s.holds, h, s.work[t].kind.ship) {
        assert h in Range(found) <==> h in HeldOf(s.holds, s.work[t].kind.ship);
      }
    }
  }

  lemma LookKeepsInv(lines: Requests, s: World, t: Txn, found: seq<HoldId>)
    requires Inv(lines, s) && Enabled(s, Look(t, found))
    ensures Inv(lines, Step(s, Look(t, found)))
  {
    var after := Step(s, Look(t, found));
    FoundIsCovered(lines, s, t, found);
    assert ItemsFit(s, t);
    forall u ensures ItemsFit(after, u) && FoundFits(after, u) && PlanCovers(after, u) {
      assert ItemsFit(s, u) && FoundFits(s, u) && PlanCovers(s, u);
    }
    forall i ensures ItemOwned(after, i) {
      assert ItemOwned(s, i);
    }
    forall h ensures HoldOwned(after, h) && RowsFull(lines, after, h) {
      assert HoldOwned(s, h) && RowsFull(lines, s, h);
    }
  }

  lemma RelookKeepsInv(lines: Requests, s: World, t: Txn, again: seq<Item>)
    requires Inv(lines, s) && Enabled(s, Relook(t, again))
    ensures Inv(lines, Step(s, Relook(t, again)))
  {
    var after := Step(s, Relook(t, again));
    assert FoundFits(s, t);
    forall u ensures ItemsFit(after, u) && FoundFits(after, u) && PlanCovers(after, u) {
      assert ItemsFit(s, u) && FoundFits(s, u) && PlanCovers(s, u);
    }
    forall i ensures ItemOwned(after, i) {
      assert ItemOwned(s, i);
    }
    forall h ensures HoldOwned(after, h) && RowsFull(lines, after, h) {
      assert HoldOwned(s, h) && RowsFull(lines, s, h);
    }
  }

  lemma GoneKeepsInv(lines: Requests, s: World, t: Txn)
    requires Inv(lines, s) && t in s.work
    ensures Inv(lines, Gone(s, t))
  {
    var after := Gone(s, t);
    forall u ensures ItemsFit(after, u) && FoundFits(after, u) && PlanCovers(after, u) {
      assert ItemsFit(s, u) && FoundFits(s, u) && PlanCovers(s, u);
    }
    forall i ensures ItemOwned(after, i) {
      assert ItemOwned(s, i);
    }
    forall h ensures HoldOwned(after, h) && RowsFull(lines, after, h) {
      assert HoldOwned(s, h) && RowsFull(lines, s, h);
    }
  }

  /** A commit keeps every row's place, closes only rows it found, and adds rows of its own shipment only. */
  lemma WrittenIs(s: World, t: Txn, ids: seq<HoldId>)
    requires t in s.work && (s.work[t].kind.Reserving? ==> |ids| == |s.work[t].want|)
    requires (forall j, k :: 0 <= j < k < |ids| ==> ids[j] != ids[k])
             && forall j :: 0 <= j < |ids| ==> ids[j] !in s.holds
    ensures var holds := Written(s, t, ids);
            && (forall h :: h in s.holds ==>
                  h in holds && holds[h].ship == s.holds[h].ship && holds[h].item == s.holds[h].item)
            && (forall h :: h in s.holds && h !in Found(s.work[t]) ==> holds[h] == s.holds[h])
            && (forall h :: h in holds && h !in s.holds ==>
                  s.work[t].kind.Reserving? && holds[h].ship == s.work[t].kind.ship && holds[h].item in s.work[t].want)
            && (s.work[t].kind.Reserving? ==>
                  forall k :: 0 <= k < |ids| ==>
                    ids[k] in holds && holds[ids[k]] == Hold(s.work[t].kind.ship, s.work[t].want[k], true))
  {
    if s.work[t].kind.Reserving? {
      var placed := Placed(s.work[t].kind.ship, s.work[t].want, ids);
      forall h | h in placed ensures h !in s.holds {
      }
    }
  }

  lemma FinishAddsNothingTo(lines: Requests, s: World, t: Txn, ids: seq<HoldId>, ship: Ship, h: HoldId)
    requires Inv(lines, s) && Enabled(s, Finish(t, ids)) && Requested(lines, s, Finish(t, ids))
    requires exists g :: g in s.holds && s.holds[g].ship == ship
    requires h in Written(s, t, ids) && Written(s, t, ids)[h].ship == ship
    ensures h in s.holds
  {
    WrittenIs(s, t, ids);
    var first :| first in s.holds && s.holds[first].ship == ship;
    assert RowsFull(lines, s, first);
  }

  /** A reserve that goes through leaves a row for every request it meets. */
  lemma PlacedMeets(s: World, t: Txn, ids: seq<HoldId>, r: set<Item>)
    requires Enabled(s, Finish(t, ids)) && s.work[t].kind.Reserving? && Meet(s.sku, Range(s.work[t].want), r)
    ensures HasRowOf(s.sku, Written(s, t, ids), s.work[t].kind.ship, r)
  {
    WrittenIs(s, t, ids);
    var w, holds := s.work[t], Written(s, t, ids);
    var i, j :| i in Range(w.want) && j in r && i in s.sku && j in s.sku && s.sku[i] == s.sku[j];
    var k :| 0 <= k < |w.want| && w.want[k] == i;
    assert ids[k] in holds && holds[ids[k]] == Hold(w.kind.ship, i, true);
    assert RowFor(s.sku, holds, w.kind.ship, s.sku[j]);
  }

  lemma RowStays(s: World, t: Txn, ids: seq<HoldId>, ship: Ship, r: set<Item>)
    requires Enabled(s, Finish(t, ids)) && HasRowOf(s.sku, s.holds, ship, r)
    ensures HasRowOf(s.sku, Written(s, t, ids), ship, r)
  {
    WrittenIs(s, t, ids);
    var i :| i in r && i in s.sku && RowFor(s.sku, s.holds, ship, s.sku[i]);
    var g :| g in s.holds && s.holds[g].ship == ship && s.holds[g].item in s.sku && s.sku[s.holds[g].item] == s.sku[i];
    assert g in Written(s, t, ids);
    assert RowFor(s.sku, Written(s, t, ids), ship, s.sku[i]);
  }

  lemma FinishKeepsRows(lines: Requests, s: World, t: Txn, ids: seq<HoldId>, h: HoldId)
    requires Inv(lines, s) && Enabled(s, Finish(t, ids)) && Requested(lines, s, Finish(t, ids)) && Meets(s.sku, lines)
    ensures RowsFull(lines, s.(holds := Written(s, t, ids)), h)
  {
    WrittenIs(s, t, ids);
    var holds, w := Written(s, t, ids), s.work[t];
    if h in holds && h in s.holds {
      assert RowsFull(lines, s, h);
      forall r | r in lines[holds[h].ship] ensures HasRowOf(s.sku, holds, holds[h].ship, r) {
        RowStays(s, t, ids, holds[h].ship, r);
      }
    } else if h in holds {
      forall r | r in lines[w.kind.ship] ensures HasRowOf(s.sku, holds, w.kind.ship, r) {
        assert Range(w.want) in lines[w.kind.ship];
        PlacedMeets(s, t, ids, r);
      }
    }
  }

  lemma FinishKeepsOthers(lines: Requests, s: World, t: Txn, ids: seq<HoldId>, u: Txn)
    requires Inv(lines, s) && Enabled(s, Finish(t, ids)) && Requested(lines, s, Finish(t, ids))
    requires u != t
    ensures var after := s.(holds := Written(s, t, ids)); FoundFits(after, u) && PlanCovers(after, u)
  {
    var after := s.(holds := Written(s, t, ids));
    WrittenIs(s, t, ids);
    assert ItemsFit(s, t) && ItemsFit(s, u) && FoundFits(s, t) && FoundFits(s, u) && PlanCovers(s, u);
    if u in s.work {
      forall h | h in Found(s.work[u]) ensures h !in Found(s.work[t]) {
        if h in Found(s.work[t]) {
          ItemOwnersAgree(s, t, u, s.holds[h].item);
        }
      }
      if ByShipment(s.work[u].kind).Some? {
        var ship := s.work[u].kind.ship;
        forall h | h in after.holds && after.holds[h].ship == ship && after.holds[h].held
          ensures h in s.holds && after.holds[h].item in s.work[u].want
        {
          FinishAddsNothingTo(lines, s, t, ids, ship, h);
        }
        var first :| first in s.holds && s.holds[first].ship == ship;
        assert first in after.holds;
      }
    }
  }

  lemma FinishKeepsInv(lines: Requests, s: World, t: Txn, ids: seq<HoldId>)
    requires Inv(lines, s) && Enabled(s, Finish(t, ids)) && Requested(lines, s, Finish(t, ids)) && Meets(s.sku, lines)
    ensures Inv(lines, Step(s, Finish(t, ids)))
  {
    var gone := Gone(s, t);
    var after := Step(s, Finish(t, ids));
    assert after == gone.(holds := Written(s, t, ids));
    GoneKeepsInv(lines, s, t);
    WrittenIs(s, t, ids);
    forall u ensures ItemsFit(after, u) && FoundFits(after, u) && PlanCovers(after, u) {
      assert ItemsFit(gone, u);
      if u != t {
        FinishKeepsOthers(lines, s, t, ids, u);
      }
    }
    forall i ensures ItemOwned(after, i) {
      assert ItemOwned(gone, i);
    }
    forall h ensures HoldOwned(after, h) {
      assert HoldOwned(gone, h);
    }
    forall h ensures RowsFull(lines, after, h) {
      FinishKeepsRows(lines, s, t, ids, h);
    }
  }

  lemma StepKeepsInv(lines: Requests, s: World, a: Action)
    requires Inv(lines, s) && Enabled(s, a) && Requested(lines, s, a) && Meets(s.sku, lines)
    ensures Inv(lines, Step(s, a))
  {
    match a
    case Start(t, kind, want) => StartKeepsInv(lines, s, t, kind, want);
    case LockNext(t) => LockKeepsInv(lines, s, t);
    case Look(t, found) => LookKeepsInv(lines, s, t, found);
    case Relook(t, again) => RelookKeepsInv(lines, s, t, again);
    case Finish(t, ids) => FinishKeepsInv(lines, s, t, ids);
    case Abort(t) => GoneKeepsInv(lines, s, t);
  }

  // ---------------------------------------------------------------- runs, cycles and progress

  ghost predicate LockRun(lines: Requests, s: World, run: seq<Action>)
    decreases |run|
  {
    run == [] || (Enabled(s, run[0]) && Requested(lines, s, run[0]) && LockRun(lines, Step(s, run[0]), run[1..]))
  }

  ghost predicate AnyRun(s: World, run: seq<Action>)
    decreases |run|
  {
    run == [] || (Enabled(s, run[0]) && AnyRun(Step(s, run[0]), run[1..]))
  }

  ghost function Run(s: World, run: seq<Action>): World
    requires AnyRun(s, run)
    decreases |run|
  {
    if run == [] then s else Run(Step(s, run[0]), run[1..])
  }

  /** No holds, no locks, nobody at work. */
  function Idle(sku: map<Item, Id>): World { World(sku, map[], map[], map[], map[]) }

  lemma {:induction false} RunKeepsInv(lines: Requests, s: World, run: seq<Action>)
    requires Inv(lines, s) && LockRun(lines, s, run) && Meets(s.sku, lines)
    ensures AnyRun(s, run) && Inv(lines, Run(s, run))
    decreases |run|
  {
    if run != [] {
      StepKeepsInv(lines, s, run[0]);
      RunKeepsInv(lines, Step(s, run[0]), run[1..]);
    }
  }

  /** The item a waiting transaction stands at. */
  function Awaited(w: Work): Item {
    if w.phase.LockingItems? && w.got < |w.want| then w.want[w.got] else 0
  }

  /** Along a wait the awaited item rises: the owner has passed it and waits, if at all, for a later one. */
  lemma AwaitedRises(lines: Requests, s: World, t: Txn, u: Txn, v: Txn)
    requires Inv(lines, s) && Waits(s, t, u) && Waits(s, u, v)
    ensures Awaited(s.work[t]) < Awaited(s.work[u])
  {
    if !s.work[t].phase.LockingItems? {
      NobodyWaitsOnHolds(lines, s, t);
    }
    if !s.work[u].phase.LockingItems? {
      NobodyWaitsOnHolds(lines, s, u);
    }
    assert ItemsFit(s, t) && ItemsFit(s, u) && ItemOwned(s, s.work[t].want[s.work[t].got]);
    var j :| 0 <= j < s.work[u].got && s.work[u].want[..s.work[u].got][j] == Awaited(s.work[t]);
    assert s.work[u].want[j] == Awaited(s.work[t]);
  }

  /** Each transaction of the chain waits for the next. */
  predicate WaitChain(s: World, chain: seq<Txn>) {
    forall k :: 0 <= k < |chain| - 1 ==> Waits(s, chain[k], chain[k + 1])
  }

  lemma {:induction false} ChainRises(lines: Requests, s: World, chain: seq<Txn>)
    requires Inv(lines, s) && |chain| >= 3 && WaitChain(s, chain)
    ensures chain[0] in s.work && chain[|chain| - 2] in s.work
    ensures Awaited(s.work[chain[0]]) < Awaited(s.work[chain[|chain| - 2]])
  {
    var n := |chain| - 3;
    assert Waits(s, chain[n], chain[n + 1]) && Waits(s, chain[n + 1], chain[n + 2]);
    AwaitedRises(lines, s, chain[n], chain[n + 1], chain[n + 2]);
    if n > 0 {
      assert WaitChain(s, chain[..|chain| - 1]);
      ChainRises(lines, s, chain[..|chain| - 1]);
    }
  }

  /** Transactions that wait for each other in a circle. */
  ghost predicate Deadlocked(s: World) {
    exists chain: seq<Txn> :: |chain| >= 2 && WaitChain(s, chain) && chain[0] == chain[|chain| - 1]
  }

  /** No deadlock, if any two requests of a shipment share a SKU: whatever transactions run, no chain of waits comes
      back to its start, and nobody waits on hold rows or for its items a second time. */
  lemma NoDeadlock(lines: Requests, sku: map<Item, Id>, run: seq<Action>)
    requires LockRun(lines, Idle(sku), run) && Meets(sku, lines)
    ensures AnyRun(Idle(sku), run)
    ensures !Deadlocked(Run(Idle(sku), run))
    ensures forall t, u :: Waits(Run(Idle(sku), run), t, u) ==> Run(Idle(sku), run).work[t].phase.LockingItems?
  {
    StartInv(lines, sku);
    RunKeepsInv(lines, Idle(sku), run);
    var s := Run(Idle(sku), run);
    forall chain: seq<Txn> | |chain| >= 2 && WaitChain(s, chain) ensures chain[0] != chain[|chain| - 1] {
      NoCircle(lines, s, chain);
    }
    forall t, u | Waits(s, t, u) ensures s.work[t].phase.LockingItems? {
      if !s.work[t].phase.LockingItems? {
        NobodyWaitsOnHolds(lines, s, t);
      }
    }
  }

  lemma NoCircle(lines: Requests, s: World, chain: seq<Txn>)
    requires Inv(lines, s) && |chain| >= 2 && WaitChain(s, chain)
    ensures chain[0] != chain[|chain| - 1]
  {
    if chain[0] == chain[|chain| - 1] {
      assert Waits(s, chain[0], chain[1]);
      var longer := chain + [chain[1]];
      assert forall k :: 0 <= k < |longer| - 1 ==> longer[k] == chain[k];
      assert WaitChain(s, longer);
      ChainRises(lines, s, longer);
      assert false;
    }
  }

  predicate Blocked(s: World, t: Txn) {
    && t in s.work && Next(s.work[t]).Some?
    && var owner := Owner(s, Next(s.work[t]).value);
       owner.Some? && owner.value != t
  }

  function Above(s: World, i: Item): set<Item> {
    set j | j in s.itemOwner && j > i
  }

  /** Following the waits from any transaction ends at one that can go on. */
  lemma {:induction false} SomebodyGoesOn(lines: Requests, s: World, t: Txn) returns (free: Txn)
    requires Inv(lines, s) && t in s.work
    ensures free in s.work && !Blocked(s, free)
    decreases if Blocked(s, t) then |Above(s, Awaited(s.work[t]))| + 1 else 0
  {
    if !Blocked(s, t) {
      return t;
    }
    var u := Owner(s, Next(s.work[t]).value).value;
    assert Waits(s, t, u);
    if !s.work[t].phase.LockingItems? {
      NobodyWaitsOnHolds(lines, s, t);
    }
    var i := Awaited(s.work[t]);
    assert ItemsFit(s, t) && ItemOwned(s, i);
    if Blocked(s, u) {
      var v := Owner(s, Next(s.work[u]).value).value;
      assert Waits(s, u, v);
      AwaitedRises(lines, s, t, u, v);
      var j := Awaited(s.work[u]);
      if !s.work[u].phase.LockingItems? {
        NobodyWaitsOnHolds(lines, s, u);
      }
      assert j in Above(s, i) && j !in Above(s, j) && Above(s, j) <= Above(s, i) - {j};
      SubsetSize(Above(s, j), Above(s, i) - {j});
    }
    free := SomebodyGoesOn(lines, s, u);
  }

  /** Whatever a transaction is about to write under its hold query is still held, and on items that it alone owns. */
  lemma WritesAreLocked(lines: Requests, sku: map<Item, Id>, run: seq<Action>, t: Txn, h: HoldId)
    requires LockRun(lines, Idle(sku), run) && Meets(sku, lines)
    ensures AnyRun(Idle(sku), run)
    ensures var s := Run(Idle(sku), run);
            t in s.work && h in Found(s.work[t]) ==>
              h in s.holds && s.holds[h].held && s.holds[h].item in s.itemOwner && s.itemOwner[s.holds[h].item] == t
  {
    StartInv(lines, sku);
    RunKeepsInv(lines, Idle(sku), run);
    var s := Run(Idle(sku), run);
    assert ItemsFit(s, t) && FoundFits(s, t);
  }

  // ---------------------------------------------------------------- one at a time, in the order they finish

  /** What a finished transaction did, told without its lock steps. By shipment, the rows are those HELD at its finish;
      expiry has chosen some HELD rows of its own. */
  datatype Effect =
    | Reserved(ship: Ship, want: seq<Item>, expired: seq<HoldId>, ids: seq<HoldId>)
    | Confirmed(ship: Ship)
    | Settled(ship: Ship)
    | Swept(want: seq<Item>, expired: seq<HoldId>)
    | Adjusted(want: seq<Item>)

  function EffectOf(w: Work, ids: seq<HoldId>): Effect {
    match w.kind
    case Reserving(ship) => Effect.Reserved(ship, w.want, Found(w), ids)
    case Confirming(ship) => Effect.Confirmed(ship)
    case Settling(ship) => Effect.Settled(ship)
    case Sweeping => Swept(w.want, Found(w))
    case Adjusting => Adjusted(w.want)
  }

  predicate HeldOn(holds: map<HoldId, Hold>, want: seq<Item>, found: seq<HoldId>) {
    forall h :: h in found ==> h in holds && holds[h].held && holds[h].item in want
  }

  /** The transaction as one step on the table: what it finds it finds now, and its rows are allowed now. */
  predicate Fits(sku: map<Item, Id>, holds: map<HoldId, Hold>, e: Effect) {
    match e
    case Reserved(ship, want, expired, ids) =>
      && |ids| == |want| > 0 && DistinctSkus(sku, want) && HeldOn(holds, want, expired)
      && (forall j :: 0 <= j < |ids| ==> ids[j] !in holds && !RowFor(sku, holds, ship, sku[want[j]]))
    case Swept(want, expired) => HeldOn(holds, want, expired)
    case _ => true
  }

  /** Every row the shipment still holds is closed. */
  function ClosedFor(holds: map<HoldId, Hold>, ship: Ship): map<HoldId, Hold> {
    map h | h in holds :: if holds[h].ship == ship && holds[h].held then holds[h].(held := false) else holds[h]
  }

  function Performed(sku: map<Item, Id>, holds: map<HoldId, Hold>, e: Effect): map<HoldId, Hold>
    requires Fits(sku, holds, e)
  {
    match e
    case Reserved(ship, want, expired, ids) => Closed(holds, expired) + Placed(ship, want, ids)
    case Settled(ship) => ClosedFor(holds, ship)
    case Swept(_, expired) => Closed(holds, expired)
    case _ => holds
  }

  /** At its finish a transaction does to the table what it would have done in one step at that moment. */
  lemma FinishIsAtomic(lines: Requests, s: World, t: Txn, ids: seq<HoldId>)
    requires Inv(lines, s) && Enabled(s, Finish(t, ids))
    ensures Fits(s.sku, s.holds, EffectOf(s.work[t], ids))
    ensures Written(s, t, ids) == Performed(s.sku, s.holds, EffectOf(s.work[t], ids))
  {
    assert FoundFits(s, t);
    var w := s.work[t];
    if w.phase.LockingItems? || w.kind.Confirming? {
      NothingClosed(s.holds);
    } else if w.kind.Settling? {
      ClosedForShipment(s.holds, Found(w), w.kind.ship);
    }
  }

  lemma ClosedForShipment(holds: map<HoldId, Hold>, found: seq<HoldId>, ship: Ship)
    requires forall h :: h in found <==> IsHeldFor(holds, h, ship)
    ensures Closed(holds, found) == ClosedFor(holds, ship)
  {
    forall h | h in holds ensures (h in found) == (holds[h].ship == ship && holds[h].held) {
      assert h in found <==> IsHeldFor(holds, h, ship);
    }
  }

  lemma StepIsSerial(lines: Requests, s: World, a: Action)
    requires Inv(lines, s) && Enabled(s, a)
    ensures Step(s, a).sku == s.sku
    ensures a.Finish? ==>
              && Fits(s.sku, s.holds, EffectOf(s.work[a.txn], a.ids))
              && Step(s, a).holds == Performed(s.sku, s.holds, EffectOf(s.work[a.txn], a.ids))
    ensures !a.Finish? ==> Step(s, a).holds == s.holds
  {
    if a.Finish? {
      FinishIsAtomic(lines, s, a.txn, a.ids);
    }
  }

  lemma NothingClosed(holds: map<HoldId, Hold>)
    ensures Closed(holds, []) == holds
  {
    assert forall h :: h in Closed(holds, []) <==> h in holds;
  }

  /** The finished transactions of a run, in the order of their finishes. */
  ghost function Finished(s: World, run: seq<Action>): seq<Effect>
    requires AnyRun(s, run)
    decreases |run|
  {
    if run == [] then []
    else
      (if run[0].Finish? then [EffectOf(s.work[run[0].txn], run[0].ids)] else []) + Finished(Step(s, run[0]), run[1..])
  }

  predicate AllFit(sku: map<Item, Id>, holds: map<HoldId, Hold>, effects: seq<Effect>)
    decreases |effects|
  {
    effects == [] || (Fits(sku, holds, effects[0]) && AllFit(sku, Performed(sku, holds, effects[0]), effects[1..]))
  }

  function PerformedAll(sku: map<Item, Id>, holds: map<HoldId, Hold>, effects: seq<Effect>): map<HoldId, Hold>
    requires AllFit(sku, holds, effects)
    decreases |effects|
  {
    if effects == [] then holds else PerformedAll(sku, Performed(sku, holds, effects[0]), effects[1..])
  }

  lemma PerformedCons(sku: map<Item, Id>, holds: map<HoldId, Hold>, e: Effect, rest: seq<Effect>)
    requires Fits(sku, holds, e) && AllFit(sku, Performed(sku, holds, e), rest)
    ensures AllFit(sku, holds, [e] + rest)
    ensures PerformedAll(sku, holds, [e] + rest) == PerformedAll(sku, Performed(sku, holds, e), rest)
  {
    assert ([e] + rest)[1..] == rest;
  }

  lemma {:induction false} RunIsSerial(lines: Requests, s: World, run: seq<Action>)
    requires Inv(lines, s) && LockRun(lines, s, run) && Meets(s.sku, lines)
    ensures AnyRun(s, run) && AllFit(s.sku, s.holds, Finished(s, run))
    ensures Run(s, run).holds == PerformedAll(s.sku, s.holds, Finished(s, run))
    decreases |run|
  {
    if run != [] {
      var next := Step(s, run[0]);
      StepKeepsInv(lines, s, run[0]);
      StepIsSerial(lines, s, run[0]);
      RunIsSerial(lines, next, run[1..]);
      if run[0].Finish? {
        PerformedCons(s.sku, s.holds, EffectOf(s.work[run[0].txn], run[0].ids), Finished(next, run[1..]));
      } else {
        assert Finished(s, run) == [] + Finished(next, run[1..]) == Finished(next, run[1..]);
      }
    }
  }

  /** Why transactions may be taken as single steps: a run of lock steps leaves the holds that its finished transactions
      leave when they are performed one at a time, in the order they finish, each on the table as it stands then. */
  lemma SerialInFinishOrder(lines: Requests, sku: map<Item, Id>, run: seq<Action>)
    requires LockRun(lines, Idle(sku), run) && Meets(sku, lines)
    ensures AnyRun(Idle(sku), run) && AllFit(sku, map[], Finished(Idle(sku), run))
    ensures Run(Idle(sku), run).holds == PerformedAll(sku, map[], Finished(Idle(sku), run))
  {
    StartInv(lines, sku);
    RunIsSerial(lines, Idle(sku), run);
  }
}
