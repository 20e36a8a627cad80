/** The synchronous client: a circuit breaker, and the retry loop around each request. */
module HttpClient {
  import opened Common

  datatype Call = Succeeded | Failed(at: Time)

  /** How many of the latest calls failed in a row. */
  function TrailingFailures(calls: seq<Call>): nat {
    if calls == [] || calls[|calls| - 1].Succeeded? then 0 else 1 + TrailingFailures(calls[..|calls| - 1])
  }

  lemma {:induction false} TrailingFailuresAre(calls: seq<Call>, n: nat)
    ensures n <= TrailingFailures(calls) <==>
            n <= |calls| && forall k :: |calls| - n <= k < |calls| ==> calls[k].Failed?
  {
    if calls != [] && calls[|calls| - 1].Failed? && n > 0 {
      var m := |calls| - 1;
      TrailingFailuresAre(calls[..m], n - 1);
      assert forall k :: 0 <= k < m ==> calls[..m][k] == calls[k];
    }
  }

  /** When the breaker was opened, as a function of all calls so far. */
  function OpenedAt(calls: seq<Call>, threshold: int): Option<Time> {
    if calls != [] && calls[|calls| - 1].Failed? && TrailingFailures(calls) >= threshold
    then Some(calls[|calls| - 1].at) else None
  }

  class CircuitBreaker {
    const threshold: int
    const resetAfter: int
    var failures: int
    var openedAt: Option<Time>
    ghost var calls: seq<Call>

    /** The two fields are functions of the history. */
    ghost predicate Valid()
      reads this
    {
      failures == TrailingFailures(calls) && openedAt == OpenedAt(calls, threshold)
    }

    constructor (threshold: int, resetAfter: int)
      ensures Valid() && calls == [] && this.threshold == threshold && this.resetAfter == resetAfter
    {
      this.threshold, this.resetAfter := threshold, resetAfter;
      failures, openedAt, calls := 0, None, [];
    }

    predicate IsOpen(now: Time)
      reads this
    {
      openedAt.Some? && now - openedAt.value < resetAfter
    }

    method RecordSuccess()
      requires Valid()
      modifies this
      ensures Valid() && calls == old(calls) + [Succeeded]
    {
      failures := 0;
      openedAt := None;
      calls := calls + [Succeeded];
    }

    method RecordFailure(now: Time)
      requires Valid()
      modifies this
      ensures Valid() && calls == old(calls) + [Failed(now)]
    {
      failures := failures + 1;
      if failures >= threshold {
        openedAt := Some(now);
      }
      calls := calls + [Failed(now)];
      assert calls[..|calls| - 1] == old(calls);
    }
  }

  /** The breaker refuses a call exactly when the last `threshold` calls, and at least one, all failed, and the latest
      of them is less than `resetAfter` ago. */
  lemma OpenIff(breaker: CircuitBreaker, now: Time)
    requires breaker.Valid()
    ensures breaker.IsOpen(now) <==>
            var calls, n := breaker.calls, if breaker.threshold < 1 then 1 else breaker.threshold;
            && n <= |calls| && (forall k :: |calls| - n <= k < |calls| ==> calls[k].Failed?)
            && now - calls[|calls| - 1].at < breaker.resetAfter
  {
    var n := if breaker.threshold < 1 then 1 else breaker.threshold;
    TrailingFailuresAre(breaker.calls, n);
    TrailingFailuresAre(breaker.calls, 1);
  }

  // ---------------------------------------------------------------- requests

  datatype Verb = GET | HEAD | OPTIONS | POST | PUT | PATCH | DELETE

  predicate IsSafe(verb: Verb) { verb.GET? || verb.HEAD? || verb.OPTIONS? }

  /** What comes back from one send, and when: an answer with a status code, or a transport error. */
  datatype Reply = Reply(status: Option<int>, at: Time)

  predicate Retryable(reply: Reply) {
    reply.status.None? || reply.status.value in {502, 503, 504}
  }

  datatype Result = Response(status: int) | RemoteError(status: int) | Unavailable

  function ResultOf(status: int): Result {
    if status >= 400 then RemoteError(status) else Response(status)
  }

  predicate MayRetry(verb: Verb, key: Option<string>) {
    IsSafe(verb) || key.Some?
  }

  /** The Idempotency-Key header: an empty key is not sent. */
  function KeyHeader(key: Option<string>): Option<string> {
    if key.Some? && key.value != "" then key else None
  }

  function CallOf(reply: Reply): Call {
    if Retryable(reply) then Failed(reply.at) else Succeeded
  }

  function CallsOf(replies: seq<Reply>): (calls: seq<Call>)
    ensures |calls| == |replies|
  {
    if replies == [] then [] else CallsOf(replies[..|replies| - 1]) + [CallOf(replies[|replies| - 1])]
  }

  function Attempts(retries: int, verb: Verb, key: Option<string>): int {
    1 + (if MayRetry(verb, key) then retries else 0)
  }

  /** How often a request is sent if the successive sends get these replies: up to the first that settles it. */
  function Sends(attempts: int, replies: seq<Reply>): (n: nat)
    requires attempts <= |replies|
    ensures n <= |replies| && (attempts > 0 ==> 1 <= n <= attempts) && (attempts <= 0 ==> n == 0)
    ensures forall k :: 0 <= k < n - 1 ==> Retryable(replies[k])
    ensures 0 < n < attempts ==> !Retryable(replies[n - 1])
  {
    if attempts <= 0 then 0
    else if attempts == 1 || !Retryable(replies[0]) then 1
    else 1 + Sends(attempts - 1, replies[1..])
  }

  lemma {:induction false} SendsIs(attempts: int, replies: seq<Reply>, n: nat)
    requires 0 < n <= attempts <= |replies|
    requires forall k :: 0 <= k < n - 1 ==> Retryable(replies[k])
    requires n < attempts ==> !Retryable(replies[n - 1])
    ensures Sends(attempts, replies) == n
  {
    if n > 1 {
      SendsIs(attempts - 1, replies[1..], n - 1);
    }
  }

  class ServiceClient {
    const retries: int
    const breaker: CircuitBreaker

    constructor (retries: int, breaker: CircuitBreaker)
      ensures this.retries == retries && this.breaker == breaker
    {
      this.retries, this.breaker := retries, breaker;
    }

    /** request: `replies` are what the successive sends would get. All but the last of those sent failed in a retryable
        way, and the result is the last one's. */
    method Request(verb: Verb, key: Option<string>, now: Time, replies: seq<Reply>)
      returns (result: Result, sent: nat, header: Option<string>)
      requires breaker.Valid() && |replies| >= Attempts(retries, verb, key)
      modifies breaker
      ensures breaker.Valid()
      ensures old(breaker.IsOpen(now)) || Attempts(retries, verb, key) <= 0 ==>
                result == Unavailable && sent == 0 && breaker.calls == old(breaker.calls)
      ensures !old(breaker.IsOpen(now)) && Attempts(retries, verb, key) > 0 ==>
                && 1 <= sent <= Attempts(retries, verb, key)
                && (forall k :: 0 <= k < sent - 1 ==> Retryable(replies[k]))
                && (if Retryable(replies[sent - 1])
                    then result == Unavailable && sent == Attempts(retries, verb, key)
                    else result == ResultOf(replies[sent - 1].status.value))
                && breaker.calls == old(breaker.calls) + CallsOf(replies[..sent])
      ensures !old(breaker.IsOpen(now)) && !IsSafe(verb) && key.None? ==> sent == 1
      ensures !old(breaker.IsOpen(now)) ==> sent == Sends(Attempts(retries, verb, key), replies)
      ensures header == if key == Some("") then None else key
    {
      header := if key.Some? && key.value != "" then key else None;
      sent := 0;
      if breaker.IsOpen(now) {
        return Unavailable, 0, header;
      }
      var mayRetry := IsSafe(verb) || key.Some?;
      var attempts := 1 + (if mayRetry then retries else 0);
      while sent < attempts
        invariant 0 <= sent && (sent <= attempts || sent == 0) && breaker.Valid()
        invariant forall k :: 0 <= k < sent ==> Retryable(replies[k])
        invariant breaker.calls == old(breaker.calls) + CallsOf(replies[..sent])
      {
        var reply := replies[sent];
        assert replies[..sent + 1][..sent] == replies[..sent];
        sent := sent + 1;
        if Retryable(reply) {
          breaker.RecordFailure(reply.at);
        } else {
          breaker.RecordSuccess();
          SendsIs(attempts, replies, sent);
          return ResultOf(reply.status.value), sent, header;
        }
      }
      if attempts > 0 {
        SendsIs(attempts, replies, sent);
      }
      return Unavailable, sent, header;
    }

    /** An empty key: the request is sent again after a retryable answer, and no send carries the header. */
    method EmptyKeyIsSentAgain(verb: Verb, now: Time, replies: seq<Reply>)
      returns (result: Result, sent: nat, header: Option<string>)
      requires breaker.Valid() && !breaker.IsOpen(now) && !IsSafe(verb) && retries >= 1
      requires |replies| >= 1 + retries && Retryable(replies[0])
      modifies breaker
      ensures sent >= 2 && header.None?
    {
      result, sent, header := Request(verb, Some(""), now, replies);
    }
  }

  /** If nobody ever answers, a safe request or one with a key is sent once and again for each retry; any other goes out
      once. */
  lemma SilenceExhausts(retries: nat, verb: Verb, key: Option<string>, replies: seq<Reply>)
    requires |replies| >= 1 + retries && forall k :: 0 <= k < |replies| ==> replies[k].status.None?
    ensures |replies| >= Attempts(retries, verb, key)
    ensures Sends(Attempts(retries, verb, key), replies) ==
            if verb in {GET, HEAD, OPTIONS} || key.Some? then 1 + retries else 1
  {
    var n := if verb in {GET, HEAD, OPTIONS} || key.Some? then 1 + retries else 1;
    SendsIs(n, replies, n);
  }

  /** Each send counts for the breaker: a 502, 503, 504 or no answer as a failure at its time, anything else as a
      success. */
  lemma {:induction false} CallsTell(replies: seq<Reply>, k: nat)
    requires k < |replies|
    ensures CallsOf(replies)[k] == if replies[k].status in {None, Some(502), Some(503), Some(504)}
                                   then Failed(replies[k].at) else Succeeded
  {
    if k < |replies| - 1 {
      CallsTell(replies[..|replies| - 1], k);
    }
  }

  /** What the caller learns, in terms of what was answered: `sent` and `result` are as Request leaves them. A response
      below 400 or an error from 400 on is the last send's, and no 502, 503 or 504 is among the errors; `Unavailable`
      means that every send was answered 502, 503 or 504, or not at all, and that there was no attempt left. */
  lemma ResultTells(attempts: int, replies: seq<Reply>, sent: nat, result: Result)
    requires 1 <= sent <= attempts && sent <= |replies| && forall k :: 0 <= k < sent - 1 ==> Retryable(replies[k])
    requires if Retryable(replies[sent - 1]) then result == Unavailable && sent == attempts
             else result == ResultOf(replies[sent - 1].status.value)
    ensures var last := replies[sent - 1].status;
            match result
            case Response(status) => last == Some(status) && status < 400
            case RemoteError(status) => last == Some(status) && status >= 400 && status !in {502, 503, 504}
            case Unavailable =>
              && sent == attempts
              && forall k :: 0 <= k < sent ==> replies[k].status in {None, Some(502), Some(503), Some(504)}
    ensures forall k :: 0 <= k < sent - 1 ==> replies[k].status in {None, Some(502), Some(503), Some(504)}
  {
  }

  /** Some replies make a write go out more than once without the header that protects it, exactly when its key is given
      but empty and there is a retry. */
  lemma RepeatedUnprotectedIff(retries: int, verb: Verb, key: Option<string>)
    requires !IsSafe(verb)
    ensures (exists replies ::
               Attempts(retries, verb, key) <= |replies| && Sends(Attempts(retries, verb, key), replies) >= 2)
            && KeyHeader(key).None?
            <==> key == Some("") && retries >= 1
  {
    if key == Some("") && retries >= 1 {
      var replies := seq(1 + retries, k => Reply(None, 0));
      SendsIs(1 + retries, replies, 1 + retries);
      assert Sends(Attempts(retries, verb, key), replies) >= 2;
    }
  }
}
