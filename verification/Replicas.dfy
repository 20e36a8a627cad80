/** The warehouse replica that Inventory and Shipment keep from warehouse snapshots: last writer by source timestamp. */
module Replicas {
  import opened Common

  /** `facts` stands for code, name, status, city and the deleted flag. */
  datatype Snapshot = Snapshot(warehouse: Id, updatedAt: Time, facts: Id)

  /** One statement: insert, or overwrite unless the stored snapshot is newer. */
  function Upsert(replica: map<Id, Snapshot>, s: Snapshot): map<Id, Snapshot> {
    if s.warehouse in replica && replica[s.warehouse].updatedAt > s.updatedAt then replica
    else replica[s.warehouse := s]
  }

  function UpsertAll(replica: map<Id, Snapshot>, deliveries: seq<Snapshot>): map<Id, Snapshot> {
    if deliveries == [] then replica
    else Upsert(UpsertAll(replica, deliveries[..|deliveries| - 1]), deliveries[|deliveries| - 1])
  }

  class WarehouseReplica {
    var rows: map<Id, Snapshot>
    ghost var deliveries: seq<Snapshot>

    ghost predicate Valid()
      reads this
    {
      rows == UpsertAll(map[], deliveries)
    }

    constructor ()
      ensures Valid() && deliveries == []
    {
      rows, deliveries := map[], [];
    }

    method UpsertWarehouse(s: Snapshot)
      requires Valid()
      modifies this
      ensures Valid() && deliveries == old(deliveries) + [s] && rows == Upsert(old(rows), s)
    {
      if s.warehouse !in rows {
        rows := rows[s.warehouse := s];
      } else if rows[s.warehouse].updatedAt <= s.updatedAt {
        rows := rows[s.warehouse := s];
      }
      deliveries := deliveries + [s];
      assert deliveries[..|deliveries| - 1] == old(deliveries);
    }
  }

  /** Among these deliveries, s is the warehouse's snapshot that nothing delivered is newer than. */
  ghost predicate Newest(deliveries: seq<Snapshot>, s: Snapshot) {
    && s in deliveries
    && forall k :: 0 <= k < |deliveries| && deliveries[k].warehouse == s.warehouse ==>
         deliveries[k].updatedAt <= s.updatedAt
  }

  /** What is stored for a warehouse is a newest delivered snapshot, and something is stored once anything was
      delivered. */
  lemma {:induction false} StoredIsNewest(deliveries: seq<Snapshot>, w: Id)
    ensures var replica := UpsertAll(map[], deliveries);
            && (w in replica <==> exists k :: 0 <= k < |deliveries| && deliveries[k].warehouse == w)
            && (w in replica ==> replica[w].warehouse == w && Newest(deliveries, replica[w]))
  {
    if deliveries != [] {
      var n := |deliveries| - 1;
      StoredIsNewest(deliveries[..n], w);
      if exists k :: 0 <= k < n && deliveries[k].warehouse == w {
        var k :| 0 <= k < n && deliveries[k].warehouse == w;
        assert deliveries[..n][k] == deliveries[k];
      }
      var replica := UpsertAll(map[], deliveries);
      if w in replica {
        forall k | 0 <= k < n && deliveries[k].warehouse == w ensures deliveries[k].updatedAt <= replica[w].updatedAt {
          assert deliveries[..n][k] == deliveries[k];
        }
      }
    }
  }

  /** The stored timestamp of a warehouse never goes back. */
  lemma {:induction false} TimestampsRise(replica: map<Id, Snapshot>, deliveries: seq<Snapshot>, w: Id)
    requires w in replica
    ensures w in UpsertAll(replica, deliveries) && replica[w].updatedAt <= UpsertAll(replica, deliveries)[w].updatedAt
  {
    if deliveries != [] {
      TimestampsRise(replica, deliveries[..|deliveries| - 1], w);
    }
  }

  // ---------------------------------------------------------------- convergence

  /** The same snapshots, in any order and with any repeats. */
  ghost predicate SameSnapshots(a: seq<Snapshot>, b: seq<Snapshot>) {
    forall s :: s in a <==> s in b
  }

  /** Two different snapshots of the warehouse share its greatest timestamp. */
  ghost predicate TiedAtTheTop(deliveries: seq<Snapshot>, w: Id) {
    exists s: Snapshot, t: Snapshot {:trigger Newest(deliveries, s), Newest(deliveries, t)} ::
      s.warehouse == w && t.warehouse == w && s != t && Newest(deliveries, s) && Newest(deliveries, t)
  }

  function Stored(deliveries: seq<Snapshot>, w: Id): Option<Snapshot> {
    var replica := UpsertAll(map[], deliveries);
    if w in replica then Some(replica[w]) else None
  }

  lemma Converges(a: seq<Snapshot>, b: seq<Snapshot>, w: Id)
    requires SameSnapshots(a, b) && !TiedAtTheTop(a, w)
    ensures Stored(a, w) == Stored(b, w)
  {
    StoredIsNewest(a, w);
    StoredIsNewest(b, w);
    if Stored(a, w).Some? {
      var s := Stored(a, w).value;
      assert s in b;
      assert Stored(b, w).Some?;
      var t := Stored(b, w).value;
      assert t in a;
      forall k | 0 <= k < |a| && a[k].warehouse == w ensures a[k].updatedAt <= t.updatedAt {
        assert a[k] in b;
      }
      assert Newest(a, t);
    }
  }

  /** Delivered last, a newest snapshot is what stays. */
  lemma LastNewestStays(deliveries: seq<Snapshot>, s: Snapshot)
    requires Newest(deliveries, s)
    ensures SameSnapshots(deliveries, deliveries + [s]) && Stored(deliveries + [s], s.warehouse) == Some(s)
  {
    StoredIsNewest(deliveries, s.warehouse);
    assert (deliveries + [s])[..|deliveries|] == deliveries;
  }

  /** Every order, with every repeat, of the delivered snapshots stores the same for a warehouse exactly when no two
      different snapshots of it share the greatest timestamp. */
  lemma OrderIsIrrelevantIff(deliveries: seq<Snapshot>, w: Id)
    ensures (forall other :: SameSnapshots(deliveries, other) ==> Stored(other, w) == Stored(deliveries, w))
            <==> !TiedAtTheTop(deliveries, w)
  {
    if TiedAtTheTop(deliveries, w) {
      var s: Snapshot, t: Snapshot :| s.warehouse == w && t.warehouse == w && s != t && Newest(deliveries, s)
      && Newest(deliveries, t);
      LastNewestStays(deliveries, s);
      LastNewestStays(deliveries, t);
    } else {
      forall other | SameSnapshots(deliveries, other) ensures Stored(other, w) == Stored(deliveries, w) {
        Converges(deliveries, other, w);
      }
    }
  }

  /** With all timestamps of a warehouse distinct, any delivery order stores its one newest snapshot. */
  lemma DistinctTimestampsConverge(a: seq<Snapshot>, b: seq<Snapshot>, w: Id)
    requires SameSnapshots(a, b)
    requires forall j, k :: 0 <= j < |a| && 0 <= k < |a| && a[j].warehouse == w == a[k].warehouse
                            && a[j].updatedAt == a[k].updatedAt
               ==> a[j] == a[k]
    ensures Stored(a, w) == Stored(b, w)
    ensures Stored(a, w).Some? ==> Newest(a, Stored(a, w).value)
  {
    Converges(a, b, w);
    StoredIsNewest(a, w);
  }
}
