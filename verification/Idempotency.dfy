/** The idempotency-key store: claim, record, release and purge, as functions and as the class that runs them. */
module Idempotency {
  import opened Common

  /** One (owner, key) pair. */
  type KeyId = Id

  /** `request` stands for the endpoint and the payload hash, `response` for the stored status and body. */
  datatype Row = Row(id: Id, request: Id, response: Option<Id>, lockedUntil: Option<Time>, completed: bool,
                     expiresAt: Time)

  datatype Outcome =
    | Claimed(id: Id)
    | Replayed(response: Option<Id>)
    | InProgress
    | KeyReused

  datatype Terms = Terms(lease: int, ttl: int)

  /** The claim transaction with the clock reading taken before it. `newId` is the id the INSERT would use. */
  function ClaimRow(rows: map<KeyId, Row>, key: KeyId, request: Id, now: Time, terms: Terms,
                    newId: Id): (map<KeyId, Row>, Outcome) {
    if key !in rows then
      (rows[key := Row(newId, request, None, Some(now + terms.lease), false, now + terms.ttl)], Claimed(newId))
    else
      var r := rows[key];
      if r.expiresAt <= now then
        (rows[key := Row(r.id, request, None, Some(now + terms.lease), false, now + terms.ttl)], Claimed(r.id))
      else if r.request != request then (rows, KeyReused)
      else if r.completed then (rows, Replayed(r.response))
      else if r.lockedUntil.Some? && r.lockedUntil.value > now then (rows, InProgress)
      else (rows[key := r.(lockedUntil := Some(now + terms.lease))], Claimed(r.id))
  }

  /** The UPDATE by claim id that record adds to the caller's transaction. */
  function RecordRows(rows: map<KeyId, Row>, id: Id, response: Id): map<KeyId, Row> {
    map k | k in rows ::
      if rows[k].id == id then rows[k].(response := Some(response), completed := true, lockedUntil := None) else rows[k]
  }

  /** The DELETE of an unfinished claim. */
  function ReleaseRows(rows: map<KeyId, Row>, id: Id): map<KeyId, Row> {
    map k | k in rows && !(rows[k].id == id && !rows[k].completed) :: rows[k]
  }

  function PurgeRows(rows: map<KeyId, Row>, now: Time): map<KeyId, Row> {
    map k | k in rows && rows[k].expiresAt > now :: rows[k]
  }

  function RowIds(rows: map<KeyId, Row>): set<Id> {
    set k | k in rows :: rows[k].id
  }

  /** Ids are the table's primary key. */
  predicate DistinctIds(rows: map<KeyId, Row>) {
    forall j, k :: j in rows && k in rows && rows[j].id == rows[k].id ==> j == k
  }

  lemma NobodyRecorded(rows: map<KeyId, Row>, id: Id, response: Id)
    ensures id !in RowIds(rows) ==> RecordRows(rows, id, response) == rows
  {
    if id !in RowIds(rows) {
      forall k | k in rows ensures rows[k].id != id {
        assert rows[k].id in RowIds(rows);
      }
      assert RecordRows(rows, id, response).Keys == rows.Keys;
    }
  }

  // ---------------------------------------------------------------- what the next caller sees

  /** Claim, then record: until the key expires the same request gets the recorded response and any other request is
      refused, both without effect; from its expiry on the key is free for anybody. Other keys never notice. */
  lemma RecordedIsReplayed(rows: map<KeyId, Row>, key: KeyId, request: Id, now: Time, terms: Terms, newId: Id,
                           response: Id,
                           asked: Id, later: Time, laterId: Id)
    requires DistinctIds(rows) && newId !in RowIds(rows)
    requires ClaimRow(rows, key, request, now, terms, newId).1.Claimed?
    ensures var (claimed, outcome) := ClaimRow(rows, key, request, now, terms, newId);
            var recorded := RecordRows(claimed, outcome.id, response);
            var (after, answer) := ClaimRow(recorded, key, asked, later, terms, laterId);
            && key in recorded
            && (later < recorded[key].expiresAt ==>
                  after == recorded && answer == if asked == request then Replayed(Some(response)) else KeyReused)
            && (recorded[key].expiresAt <= later ==> answer == Claimed(outcome.id))
            && recorded.Keys == rows.Keys + {key}
            && (forall k :: k in rows && k != key ==> recorded[k] == rows[k])
            && ReleaseRows(recorded, outcome.id) == recorded
  {
    ClaimedIdIsItsOwn(rows, key, request, now, terms, newId);
    var (claimed, outcome) := ClaimRow(rows, key, request, now, terms, newId);
    var recorded := RecordRows(claimed, outcome.id, response);
    assert ReleaseRows(recorded, outcome.id).Keys == recorded.Keys;
  }

  lemma ClaimedIdIsItsOwn(rows: map<KeyId, Row>, key: KeyId, request: Id, now: Time, terms: Terms, newId: Id)
    requires DistinctIds(rows) && newId !in RowIds(rows)
    requires ClaimRow(rows, key, request, now, terms, newId).1.Claimed?
    ensures var (claimed, outcome) := ClaimRow(rows, key, request, now, terms, newId);
            && claimed.Keys == rows.Keys + {key} && claimed[key].id == outcome.id && !claimed[key].completed
            && claimed[key].request == request
            && forall k :: k in rows && k != key ==> claimed[k] == rows[k] && claimed[k].id != outcome.id
  {
    forall k | k in rows ensures rows[k].id in RowIds(rows) {
    }
  }

  /** Claim, then release: the key is as if it had never been used, whatever the next request is and whenever it
      comes. */
  lemma ReleasedIsFree(rows: map<KeyId, Row>, key: KeyId, request: Id, now: Time, terms: Terms, newId: Id,
                       asked: Id, later: Time, laterId: Id)
    requires DistinctIds(rows) && newId !in RowIds(rows)
    requires ClaimRow(rows, key, request, now, terms, newId).1.Claimed?
    ensures var (claimed, outcome) := ClaimRow(rows, key, request, now, terms, newId);
            var released := ReleaseRows(claimed, outcome.id);
            && released == rows - {key}
            && ClaimRow(released, key, asked, later, terms, laterId).1 == Claimed(laterId)
  {
    ClaimedIdIsItsOwn(rows, key, request, now, terms, newId);
    var (claimed, outcome) := ClaimRow(rows, key, request, now, terms, newId);
    var released := ReleaseRows(claimed, outcome.id);
    forall k ensures k in released <==> k in rows && k != key {
      if k in rows && k != key {
        assert k in claimed.Keys && claimed[k].id != outcome.id;
      }
    }
  }

  /** Purging is invisible to callers: whoever asks from then on gets the answer he would have got, or claims where he
      would have claimed, and no two purges in a row find anything. */
  lemma PurgeIsInvisible(rows: map<KeyId, Row>, now: Time, key: KeyId, request: Id, later: Time, terms: Terms,
                         newId: Id)
    requires now <= later
    ensures var answer := ClaimRow(rows, key, request, later, terms, newId).1;
            var purged := ClaimRow(PurgeRows(rows, now), key, request, later, terms, newId).1;
            purged == answer || (purged.Claimed? && answer.Claimed?)
    ensures PurgeRows(PurgeRows(rows, now), now) == PurgeRows(rows, now)
  {
    assert PurgeRows(PurgeRows(rows, now), now).Keys == PurgeRows(rows, now).Keys;
  }

  // ---------------------------------------------------------------- how long a claim lasts

  /** A key that is free at `now` is claimed, and for one lifetime from that reading it belongs to the request: any
      other request is refused, and the same one waits for one lease and then takes the claim over. After that lifetime
      it is free again. */
  lemma ClaimLasts(rows: map<KeyId, Row>, key: KeyId, request: Id, now: Time, terms: Terms, newId: Id,
                   asked: Id, later: Time, laterId: Id)
    requires key !in rows || rows[key].expiresAt <= now
    requires now <= later
    ensures var (claimed, outcome) := ClaimRow(rows, key, request, now, terms, newId);
            var (after, answer) := ClaimRow(claimed, key, asked, later, terms, laterId);
            && outcome == Claimed(if key in rows then rows[key].id else newId)
            && (if now + terms.ttl <= later || (asked == request && now + terms.lease <= later)
                then answer == outcome
                else after == claimed && answer == if asked == request then InProgress else KeyReused)
  {
  }

  /** Recorded in time, its response is replayed to the same request for the rest of that lifetime, and no longer. */
  lemma RecordLasts(rows: map<KeyId, Row>, key: KeyId, request: Id, now: Time, terms: Terms, newId: Id, response: Id,
                    asked: Id, later: Time, laterId: Id)
    requires key !in rows || rows[key].expiresAt <= now
    requires now <= later
    ensures var (claimed, outcome) := ClaimRow(rows, key, request, now, terms, newId);
            && outcome.Claimed?
            && var recorded := RecordRows(claimed, outcome.id, response);
               var (after, answer) := ClaimRow(recorded, key, asked, later, terms, laterId);
               if now + terms.ttl <= later then answer == outcome
               else after == recorded && answer == if asked == request then Replayed(Some(response)) else KeyReused
  {
  }

  /** A takeover starts a new lease under the same claim id, and leaves the end of the key's lifetime where the first
      claim had put it. */
  lemma TakeoverLasts(rows: map<KeyId, Row>, key: KeyId, request: Id, now: Time, terms: Terms, newId: Id,
                      taken: Time, takerId: Id, asked: Id, later: Time, laterId: Id)
    requires key !in rows || rows[key].expiresAt <= now
    requires now + terms.lease <= taken < now + terms.ttl && now <= taken <= later
    ensures var (claimed, outcome) := ClaimRow(rows, key, request, now, terms, newId);
            var (again, second) := ClaimRow(claimed, key, request, taken, terms, takerId);
            var (after, answer) := ClaimRow(again, key, asked, later, terms, laterId);
            && second == outcome
            && (if now + terms.ttl <= later || (asked == request && taken + terms.lease <= later)
                then answer == outcome
                else after == again && answer == if asked == request then InProgress else KeyReused)
  {
  }

  /** What one request's endpoint does: it may raise, or finish with a response. */
  datatype Work = Raises | Finishes(response: Id)

  datatype Answer = Answered(response: Id) | AnsweredFromStore(stored: Option<Id>) | Refused | Failed

  class IdempotencyStore {
    var rows: map<KeyId, Row>
    const terms: Terms

    constructor (terms: Terms)
      ensures rows == map[] && this.terms == terms
    {
      rows := map[];
      this.terms := terms;
    }

    method Claim(key: KeyId, request: Id, now: Time, newId: Id) returns (outcome: Outcome)
      modifies this
      ensures (rows, outcome) == ClaimRow(old(rows), key, request, now, terms, newId)
    {
      if key !in rows {
        rows := rows[key := Row(newId, request, None, Some(now + terms.lease), false, now + terms.ttl)];
        return Claimed(newId);
      }
      var record := rows[key];
      if record.expiresAt <= now {
        record := record.(request := request);
        record := record.(response := None);
        record := record.(completed := false);
        record := record.(lockedUntil := Some(now + terms.lease));
        record := record.(expiresAt := now + terms.ttl);
        rows := rows[key := record];
        return Claimed(record.id);
      }
      if record.request != request {
        return KeyReused;
      }
      if record.completed {
        return Replayed(record.response);
      }
      if record.lockedUntil.Some? && record.lockedUntil.value > now {
        return InProgress;
      }
      rows := rows[key := record.(lockedUntil := Some(now + terms.lease))];
      return Claimed(record.id);
    }

    /** The row claimed under this id becomes complete and unlocked, with this response; its request and expiry stay,
        and so does every other row. A claim whose row is gone changes nothing. */
    method Record(id: Id, response: Id)
      modifies this
      ensures rows == RecordRows(old(rows), id, response)
      ensures rows.Keys == old(rows).Keys
      ensures forall k :: k in rows && old(rows)[k].id != id ==> rows[k] == old(rows)[k]
      ensures forall k :: k in rows && old(rows)[k].id == id ==>
                && rows[k].completed && rows[k].response == Some(response) && rows[k].lockedUntil.None?
                && rows[k].id == id && rows[k].request == old(rows)[k].request
                && rows[k].expiresAt == old(rows)[k].expiresAt
      ensures id !in RowIds(old(rows)) ==> rows == old(rows)
    {
      rows := map k | k in rows ::
        if rows[k].id == id then rows[k].(response := Some(response), completed := true, lockedUntil := None)
        else rows[k];
      NobodyRecorded(old(rows), id, response);
    }

    /** An unfinished claim under this id is gone; complete rows and all other rows stay as they are. */
    method Release(id: Id)
      modifies this
      ensures rows == ReleaseRows(old(rows), id)
      ensures forall k :: k in rows ==>
                k in old(rows) && rows[k] == old(rows)[k] && (rows[k].id == id ==> rows[k].completed)
      ensures forall k :: k in old(rows) && k !in rows ==> old(rows)[k].id == id && !old(rows)[k].completed
    {
      rows := map k | k in rows && (rows[k].id != id || rows[k].completed) :: rows[k];
    }

    /** Of the rows exactly the unexpired ones are left, unchanged, and the count is of the rows that went. */
    method PurgeExpired(now: Time) returns (purged: nat)
      modifies this
      ensures rows == PurgeRows(old(rows), now)
      ensures forall k :: k in old(rows) ==> (k in rows <==> now < old(rows)[k].expiresAt)
      ensures forall k :: k in rows ==> k in old(rows) && rows[k] == old(rows)[k]
      ensures purged == |old(rows)| - |rows|
    {
      var expired := set k | k in rows && rows[k].expiresAt <= now;
      rows := rows - expired;
      purged := |expired|;
      SubsetSize(rows.Keys, old(rows).Keys);
      assert rows.Keys == old(rows).Keys - expired;
    }

    /** run_idempotent. `left` is the table as rivals and purges have left it when the work ends. The work's effects and
        the stored response are committed together, on whatever row then carries the claim's id; a failed work frees
        that row. If nobody came between, the key is left with the response, or free for a corrected retry. */
    method RunIdempotent(key: KeyId, request: Id, now: Time, newId: Id, work: Work, left: map<KeyId, Row>)
      returns (answer: Answer, worked: bool)
      requires DistinctIds(rows) && newId !in RowIds(rows)
      modifies this
      ensures var (claimed, outcome) := ClaimRow(old(rows), key, request, now, terms, newId);
              && worked == (work.Finishes? && outcome.Claimed?)
              && (!outcome.Claimed? ==>
                    && rows == old(rows)
                    && answer == if outcome.Replayed? then AnsweredFromStore(outcome.response) else Refused)
              && (outcome.Claimed? ==>
                    && rows == (if worked then RecordRows(left, outcome.id, work.response)
                                else ReleaseRows(left, outcome.id))
                    && answer == (if worked then Answered(work.response) else Failed))
              && (outcome.Claimed? && left == claimed ==>
                    && (forall k :: k != key ==>
                          (k in rows <==> k in old(rows)) && (k in rows ==> rows[k] == old(rows)[k]))
                    && (key in rows <==> worked)
                    && (worked ==>
                          rows[key].completed && rows[key].response == Some(work.response)
                          && rows[key].request == request))
    {
      ghost var before := rows;
      worked := false;
      var outcome := Claim(key, request, now, newId);
      match outcome
      case Replayed(response) => answer := AnsweredFromStore(response);
      case InProgress => answer := Refused;
      case KeyReused => answer := Refused;
      case Claimed(id) =>
        ClaimedIdIsItsOwn(before, key, request, now, terms, newId);
        rows := left;
        match work
        case Finishes(response) =>
          Record(id, response);
          worked := true;
          answer := Answered(response);
        case Raises =>
          Release(id);
          answer := Failed;
    }
  }
}
