# SmartLogistics: reservations, delivery, idempotency and the shipment lifecycle

A Dafny model of the parts of the platform where several transactions, pods or services have to agree, with proofs of
what they guarantee together. `dafny verify dfyconfig.toml` checks everything.

The code is modelled at two levels. Classes (`ReservationService.Service`, `IdempotencyStore`, `Relay`, `EventProcessor`,
`ConsumerRunner`, `ShipmentService.Service`, `WarehouseReplica`, `CircuitBreaker`, `ServiceClient`, `AuthService`) update
their fields in place with the loops and branches of the source, and each method is proved equal to a transaction written
as a function on values. State machines then interleave those transactions, or single lock, clock, send and commit steps,
for any number of pods, and the theorems range over all their runs.

## What is where

* **Stock.** `StockTables` and `StockOps` are Inventory's tables and transactions; `ReservationService` runs them in place.
  `StockInvariant` and `StockRuns` prove the books over every run, `StockEffects` what each transaction decides and moves,
  `StockExpiry` that lazy expiry agrees with an eager sweep, `StockOnce` that repeats and races reserve once.
* **Row locks.** `Locks` runs the same transactions as lock requests, items ascending and then holds, and proves that they
  cannot deadlock and are serial in the order they finish; `LocksLimit` has the exact condition, and `LocksStock` shows
  that they are the transactions of `StockOps`.
* **Delivery.** `Delivery` is outbox, relays, broker and deduplicating consumers; `OutboxRelay` and `EventConsumer` are the
  loops that refine it; `DeliveryLimits` says exactly which relays and which give-ups keep events in order.
* **Idempotency keys.** `Idempotency` is the key store, `IdempotencyRuns` any number of pods over it.
* **Shipments.** `StateMachine` is the transition table, `ShipmentRuns` interleaved status changes under the version check,
  `ShipmentService` the service and its create endpoint, `ShipmentCreation` what a create does to the stock, whichever of
  its steps fails.
* **All together.** `EventHandlers` and `LifecycleStock` connect events to stock, and `EndToEnd` runs shipment rows,
  outbox, broker, consumers and stock as one system.
* **Satellites.** `Replicas`, `HttpClient`, `RefreshTokens`.

## Hypotheses, and what fails without them

Each hypothesis below is one the code does not enforce. Next to it stands the counterexample or the exact condition.

* *One relay at a time at work on a key's rows, and none of the key's events given up on*, for effects in order
  (`Delivery.EffectsInOrder`). Two relays with SKIP LOCKED can swap a key's events, and a drop after `max_attempts` skips
  one; `DeliveryLimits.InOrderIff` shows that nothing weaker will do for a choice of relays and a policy on giving up. At
  most once needs neither, and that nothing below an offset is lost needs the second only.
* *Holders finish before their lease and their key run out*, for at most once per key. `record` and `release` match on the
  claim id alone, so a late holder can commit twice or delete a claim that was taken over (`LateFinishCommitsTwice`,
  `LateFailCommitsTwice`). `IdempotencyRuns.AtMostOnceIff` gives the guard that `record` lacks as the exact condition over
  all runs; `FailSparesRivalsIff` says when a late release hurts.
* *Any two reserves of one shipment share a SKU*, for deadlock freedom and for the safety of reading item ids before
  locking them. Repeats of one request do. `LocksLimit.DeadlockFreeIff` shows the condition to be exact.
* *The holds are confirmed while all are still HELD*, for stock following the lifecycle. Expiry works position by position,
  so a lapsed hold of several lines can be freed in part; `DispatchTakesEveryLineIff` says when a dispatch takes all, and
  `ShipmentCreation.HoldWaitsForConfirmation` that a created message before the window ends is in time.
* *Nobody but its own events commits or releases a confirmed shipment*, for the same theorem. The compensation of a
  repeated create breaks it (`ShipmentCreation.CreateSparesEarlierHoldsIff`).
* *Pods give up only on what the handler refuses*, in `EndToEnd`: outages end before the attempts do. The theorem then
  shows that the shipment's events are not refused, so they are not given up on.
* *Timestamps of a warehouse's snapshots differ*, for replica convergence. The guard is `<=`, so equal timestamps let the
  later delivery win (`Replicas.OrderIsIrrelevantIff`).

## What the proofs turned up

* A refused reserve also rolls back the expiry it had just done for its positions (`StockOnce.ReserveIsAllOrNothing`).
* A reserve replayed after a release succeeds, reports RELEASED and holds nothing (`ReplayAfterReleaseHoldsNothing`).
* Compensation releases by shipment id. A create repeated under the same id, once its idempotency key has expired, gives
  back the stock of the shipment recorded the first time, which can then never be dispatched
  (`ShipmentCreation.CreatingTwiceStrandsTheShipment`, and `CreatingTwiceHappens` from empty tables).
* An empty idempotency key makes a write go out again although no header is sent (`HttpClient.RepeatedUnprotectedIff`).
* A breaker threshold of zero or less acts as one (`HttpClient.OpenIff`).
* The outbox model's comment says rows are published in commit order. The sequence number is drawn before the commit, so
  across keys the two orders differ; for one key they agree (`EndToEnd.CommitsKeepKeyOrder`). The consumer's comment says an
  event is never lost; it can be given up on. In both places the model follows the code.

## Model

| member | source | states |
|---|---|---|
| `ReservationService.Service.Reserve` | services/inventory/src/inventory/services/reservations.py:62-107 | reserving returns the shipment's existing rows for the same request, refuses a different one, and otherwise holds every line or nothing; a refusal leaves all tables as they were |
| `StockOnce.RepeatIsAnswered` | services/inventory/src/inventory/services/reservations.py:321-348 | a request for a shipment with rows is refused with a mismatch exactly when the rows are not its lines or the first is in another warehouse; otherwise the answer says COMMITTED, RELEASED or confirmed exactly when every row is, and changes nothing |
| `StockEffects.ReserveNeedsTheCatalog` | services/inventory/src/inventory/services/reservations.py:71-72 | reserve is refused for an unknown or closed warehouse, an unknown or an inactive SKU exactly in those cases, in that order; what it accepts has none of them |
| `StockEffects.CreatedFrees` | services/inventory/src/inventory/services/reservations.py:74-74 | of the rows there were, an accepted reserve releases exactly the lapsed ones on positions it needs |
| `StockEffects.CreatedMoves` | services/inventory/src/inventory/services/reservations.py:88-91 | an accepted reserve leaves on-hand alone, takes off each position it needs what had lapsed there and adds what its lines ask for, and moves no other position |
| `ReservationService.Service.ReservePastCheck` | services/inventory/src/inventory/services/reservations.py:68-107 | the same for a request that passed the unlocked existence check before a rival's rows appeared: the unique constraint then refuses it and its expiries are rolled back too |
| `ReservationService.Service.HoldAll` | services/inventory/src/inventory/services/reservations.py:86-103 | the holds of all lines are kept together, or undone together when the unique constraint or an item check objects |
| `ReservationService.Service.PlaceLines` | services/inventory/src/inventory/services/reservations.py:86-102 | the loop over lines adds one HELD, unconfirmed row per line and raises that line's position by its quantity |
| `ReservationService.Service.Confirm` | services/inventory/src/inventory/services/reservations.py:111-120 | every HELD row of the shipment stops expiring; rows confirmed before keep their time |
| `ReservationService.Service.Commit` | services/inventory/src/inventory/services/reservations.py:122-155 | the shipment's HELD rows leave reserved and on-hand together with one ledger row each; a repeat is accepted as such, and a shipment with neither HELD nor COMMITTED rows is refused |
| `ReservationService.Service.CommitOne` | services/inventory/src/inventory/services/reservations.py:131-150 | one row's commit: both quantities fall by the hold, and the ledger row carries the on-hand that results |
| `ReservationService.Service.HasStatus` | services/inventory/src/inventory/services/reservations.py:213-223 | true exactly when some row of the shipment has the status |
| `ReservationService.Service.Release` | services/inventory/src/inventory/services/reservations.py:157-175 | the shipment's HELD rows are released and their quantities given back; nothing else moves |
| `ReservationService.Service.ReleaseOne` | services/inventory/src/inventory/services/reservations.py:198-205 | one row's release gives back its quantity and leaves on-hand alone |
| `ReservationService.Service.ReleaseExpired` | services/inventory/src/inventory/services/reservations.py:177-190 | the sweep locks exactly the positions that have a lapsed hold in scope and expires those positions |
| `ReservationService.Service.ExpireUnconfirmed` | services/inventory/src/inventory/services/reservations.py:272-306 | every lapsed unconfirmed hold on the given positions is released, and no other row |
| `ReservationService.Service.Select` | services/inventory/src/inventory/services/reservations.py:238-248 | a statement's rows, each once, in id order |
| `ReservationService.Service.RowsForShipment` | services/inventory/src/inventory/services/reservations.py:207-211 | all rows of the shipment whatever their status, in id order |
| `ReservationService.Service.Adjust` | services/inventory/src/inventory/services/stock.py:160-202 | a correction moves on-hand by its delta with one ledger row, or is refused and rolled back |
| `StockEffects.AdjustMoves` | services/inventory/src/inventory/services/stock.py:160-202 | an accepted correction, field by field: on-hand moves by the delta, the version by one, one ledger row carries kind, delta and result, nothing else changes |
| `StockRuns.StockIsAccountedFor` | services/inventory/src/inventory/services/stock.py:160-202 | over every run a position has on hand what it was opened with plus all accepted corrections minus what was committed |
| `ReservationService.Service.OpenPosition` | services/inventory/src/inventory/services/stock.py:126-158 | a new position starts with its opening stock and, unless that is zero, one ledger row |
| `StockEffects.OpenAdds` | services/inventory/src/inventory/services/stock.py:126-158 | a new position, field by field, with one ledger row for its opening stock unless that is zero |
| `StockEffects.OpenDecides` | services/inventory/src/inventory/services/stock.py:126-158 | when a position cannot be opened: warehouse, SKU and uniqueness in the order of the code |
| `ReservationService.LoopIsTouch` | services/inventory/src/inventory/services/reservations.py:131-150 | looping over the selected rows in place computes the row-by-row specification of the statement |
| `StockInvariant.ApplyKeepsInv` | services/inventory/src/inventory/models.py:104-109 | every transaction keeps all constraints and the books: reserved is the sum of HELD holds, on-hand is the sum of ledger deltas, each ledger row carries its running sum, holds agree with their position on warehouse and SKU, and dispatches equal committed holds |
| `StockInvariant.LocatedIsExact` | services/inventory/src/inventory/services/reservations.py:250-260 | the locked positions are exactly the warehouse's positions for the requested SKUs, one per SKU |
| `StockRuns.EveryRunKeepsTheBooks` | services/inventory/src/inventory/services/reservations.py:88-151 | over every run of reserve, confirm, commit, release, sweep, adjust and open, in any order: no position is oversold and positions, holds and ledger agree |
| `StockEffects.OnlyAdjustHitsItemChecks` | services/inventory/src/inventory/services/stock.py:163-171 | the item checks refuse an adjustment below what is held and never any other transaction |
| `StockEffects.AdjustRefusedIff` | services/inventory/src/inventory/models.py:107-109 | an adjustment of an existing position is refused exactly when it would leave less on hand than is reserved |
| `StockEffects.SweepIsCompleteAndConfined` | services/inventory/src/inventory/services/reservations.py:177-190 | after a sweep no unconfirmed HELD hold in scope is past its expiry, other warehouses are untouched, and each position's reservation fell by exactly what was released |
| `StockEffects.SweepCounts` | services/inventory/src/inventory/services/reservations.py:177-190 | the sweep answers how many holds it released |
| `StockEffects.ReserveDecides` | services/inventory/src/inventory/services/reservations.py:71-91 | for a shipment without rows, reserve succeeds exactly when the warehouse and SKUs pass, every line has a position and fits in on-hand minus the holds that are confirmed or unexpired |
| `StockEffects.ConfirmStopsExpiry` | services/inventory/src/inventory/services/reservations.py:111-120 | after confirm no HELD row of the shipment ever lapses; each keeps an earlier confirmation; positions, ledger and all other rows are as before |
| `StockEffects.CommitMarks` | services/inventory/src/inventory/services/reservations.py:122-155 | commit marks exactly the shipment's HELD rows with their time, appends one ledger row for each, raises versions by the rows on a position, and tells a retry from a shipment without stock |
| `StockEffects.ReleaseMarks` | services/inventory/src/inventory/services/reservations.py:157-175 | release marks exactly the shipment's HELD rows with their time and writes nothing to the ledger |
| `StockEffects.CreatedItem` | services/inventory/src/inventory/services/reservations.py:88-91 | an accepted reserve raises each position of the warehouse by exactly what its lines ask for, on top of what expiry freed |
| `StockExpiry.LazyRefinesEager` | services/inventory/src/inventory/services/reservations.py:272-290 | running the sweep first changes neither reserve's decision nor the quantities it leaves on the requested positions |
| `StockExpiry.SweepKeepsDecision` | services/inventory/src/inventory/services/reservations.py:78-82 | what is available to a line is the same before and after a sweep at the same time |
| `StockRuns.HoldsAreConserved` | services/inventory/src/inventory/services/reservations.py:131-150 | over every run, all quantity ever reserved on a position is now held, committed or released, and the committed part is what the dispatch rows took out |
| `StockRuns.StatusesOnlyLeaveHeld` | services/inventory/src/inventory/services/reservations.py:198-205 | rows are never removed or turned into another hold, a confirmation is never undone, and a hold that left HELD never changes again |
| `StockRuns.LedgerOnlyGrows` | services/inventory/src/inventory/models.py:179-180 | over every run the ledger is append-only |
| `StockRuns.ApplyRows` | services/inventory/src/inventory/services/reservations.py:111-205 | the only ways any transaction may treat an existing hold row |
| `StockOnce.ReserveActsOnce` | services/inventory/src/inventory/services/reservations.py:62-66 | any mix of repeats and racing repeats of one request, amid anything else, creates its rows at most once: none, or exactly one per line |
| `StockOnce.ReserveIsAllOrNothing` | services/inventory/src/inventory/services/reservations.py:62-107 | unless every line gets its hold, reserve leaves all tables unchanged, lapsed holds included |
| `StockOnce.ListedBlocks` | services/inventory/src/inventory/models.py:148 | once a line of the request has a row, neither a repeat nor a racing request creates anything |
| `StockOnce.ReplayAfterReleaseHoldsNothing` | services/inventory/src/inventory/services/reservations.py:321-329 | a replay reports RELEASED exactly when every row of the shipment was released, and then the shipment holds no stock |
| `Locks.NoDeadlock` | services/inventory/src/inventory/services/reservations.py:225-270 | if any two requests of one shipment share a SKU: in every reachable state of any number of stock transactions no chain of waits closes, and nobody waits on a hold row or for its items a second time |
| `Locks.SomebodyGoesOn` | services/inventory/src/inventory/services/reservations.py:262-270 | following the waits from any transaction ends at one that is not blocked |
| `Locks.NobodyWaitsOnHolds` | services/inventory/src/inventory/services/reservations.py:225-248 | past its item query a transaction is never blocked: owning the items keeps rivals off their holds |
| `Locks.FoundIsCovered` | services/inventory/src/inventory/services/reservations.py:225-248 | holds read under lock sit on items the transaction already owns, although the item ids were read without a lock |
| `Locks.WritesAreLocked` | services/inventory/src/inventory/services/reservations.py:129-150 | whatever commit, release or expiry is about to write is still HELD and on items it alone owns, so its position lookups are total |
| `Locks.SerialInFinishOrder` | services/inventory/src/inventory/services/reservations.py:225-288 | a run of lock steps leaves the holds that its finished transactions leave when they are performed one at a time in the order they finish, so each may be taken as one atomic step |
| `Locks.StepKeepsInv` | services/inventory/src/inventory/services/reservations.py:225-288 | each lock step keeps owners, queries and found rows consistent, and an unlocked read of a shipment's items goes on covering its HELD rows |
| `LocksLimit.DeadlockFreeIff` | services/inventory/src/inventory/services/reservations.py:225-248 | no reachable state is deadlocked exactly when any two requests of one shipment share a SKU |
| `LocksLimit.DifferentLinesDeadlock` | services/inventory/src/inventory/services/reservations.py:225-248 | for any two requests of one shipment without a common SKU, a reachable state has its commit and its release waiting for each other |
| `LocksStock.ApplyIsPerformed` | services/inventory/src/inventory/services/reservations.py:62-205 | each stock transaction does to the holds exactly what the finished lock-level transaction of its kind does, so a run of lock steps, serial in finish order, is a run of stock transactions |
| `EventHandlers.OnShipmentCreated` | services/inventory/src/inventory/events.py:71-75 | shipment.created confirms the shipment's holds |
| `EventHandlers.OnShipmentStatusChanged` | services/inventory/src/inventory/events.py:78-86 | dispatched commits, cancelled releases, every other status leaves the stock alone |
| `LifecycleStock.StockFollowsLifecycle` | services/inventory/src/inventory/events.py:71-86 | once a shipment's holds are confirmed while all HELD, no event of it is refused in any legal story amid sweeps, rival reserves, adjustments and redeliveries; its holds stand together in the status the story calls for, and what was dispatched is what was held or nothing |
| `LifecycleStock.CommitMoves` | services/inventory/src/inventory/services/reservations.py:122-155 | commit lowers each position's on-hand and reserved by exactly what the shipment holds there, and is refused exactly when the shipment has neither HELD nor COMMITTED rows |
| `LifecycleStock.ReleaseMoves` | services/inventory/src/inventory/services/reservations.py:157-175 | release lowers each position's reserved by exactly what the shipment holds there, keeps on-hand, and is never refused |
| `LifecycleStock.CalmFollows` | services/inventory/src/inventory/services/reservations.py:272-290 | a confirmed hold survives every transaction except a commit or release of its own shipment |
| `LifecycleStock.OnMessageFollows` | services/inventory/src/inventory/events.py:78-86 | each message, first or repeated, moves all the shipment's rows together |
| `LifecycleStock.OnMessageIsConfined` | services/inventory/src/inventory/events.py:71-86 | a message leaves every other shipment's holds and the positions they alone are on as they were; statuses other than dispatched and cancelled change nothing |
| `LifecycleStock.DispatchTakesEveryLineIff` | services/inventory/src/inventory/services/reservations.py:280-286 | confirm then commit takes every line exactly when expiry had not already freed one |
| `EndToEnd.CommitsKeepKeyOrder` | services/shipment/src/shipment/services/shipments.py:245-255 | every committed event keeps its shipment in outbox sequence order, whatever the interleaving, because its number is drawn under the row lock |
| `EndToEnd.AppliedIsALegalStory` | libs/sl-platform/src/sl_platform/consumer.py:42-67 | what the consumer has applied for a shipment is a first part of its committed history, created first, and a legal path |
| `EndToEnd.LifecycleReachesStock` | services/inventory/src/inventory/events.py:71-86 | over every run of shipment pods, relays, broker, consumers and stock as one system whose handlers run on the stock: if a shipment's holds are all HELD when its created message is handled, no handler refuses an event of it and none is given up on, and its stock stands where the handled part of its committed history says, with exactly what it held dispatched or nothing |
| `Delivery.EffectsInOrder` | libs/sl-platform/src/sl_platform/outbox.py:105-130 | for each key none of whose events is given up on and on whose rows one relay at a time is at work, through crashes, ambiguous sends and rewinds: the consumer's state is the fold of its handlers over a prefix of the key's outbox rows in sequence order |
| `Delivery.EffectsAtMostOnce` | libs/sl-platform/src/sl_platform/consumer.py:42-67 | with any number of relays, drops and redeliveries: each committed event takes effect at most once and nothing else does |
| `Delivery.NothingBelowAnOffsetIsLost` | libs/sl-platform/src/sl_platform/consumer.py:95-104 | with any number of relays: if no event of a key is given up on, each of its handled events below a committed offset has taken effect |
| `Delivery.StartMakesBatch` | libs/sl-platform/src/sl_platform/outbox.py:109-117 | a fresh batch leaves no pending predecessor of a key's rows behind, if no other relay holds rows of that key |
| `Delivery.NextSendIsReady` | libs/sl-platform/src/sl_platform/outbox.py:118-128 | when a row is sent, everything of its key before it is in the broker already, because the loop stops at the first failure |
| `Delivery.DeliverKeepsOrder` | libs/sl-platform/src/sl_platform/consumer.py:47-67 | a handler runs only after the handlers of all earlier events of its key |
| `OutboxRelay.Relay.RunOnce` | libs/sl-platform/src/sl_platform/outbox.py:105-130 | one call takes the first unpublished, unlocked rows by seq up to the limit; the leading acknowledged ones are marked, a failed one has one more attempt counted and ends the batch, the broker holds exactly what arrived, and a call without failure takes as much off the backlog as the limit allows |
| `OutboxRelay.QueryIsBatch` | libs/sl-platform/src/sl_platform/outbox.py:109-116 | what the query returns leaves out no pending row that precedes one it contains |
| `OutboxRelay.QueryTakes` | libs/sl-platform/src/sl_platform/outbox.py:109-116 | the batch is the first part of the unpublished, unlocked rows by seq: as many as the limit allows, all of them if there are fewer |
| `OutboxRelay.BacklogGetsOut` | libs/sl-platform/src/sl_platform/outbox.py:105-130 | once the acknowledged calls of a lone relay add up to the backlog, every committed row is published |
| `OutboxRelay.BrokerGains` | libs/sl-platform/src/sl_platform/outbox.py:118-128 | each partition's log grows, in batch order, by its acknowledged rows and by the first failed one if the broker took it; nothing later in the batch is sent |
| `OutboxRelay.RunOnceIsARelayRun` | libs/sl-platform/src/sl_platform/outbox.py:105-130 | one call is a run of the delivery machine, an orderly one for each key that no other relay is at work on |
| `EventConsumer.EventProcessor.Process` | libs/sl-platform/src/sl_platform/consumer.py:42-67 | the event id and the handler's writes are kept together or not at all; unknown types and known ids are ignored |
| `EventConsumer.ConsumerRunner.Handle` | libs/sl-platform/src/sl_platform/consumer.py:106-127 | an event is given up on exactly when all allowed attempts raised and it was still to be done |
| `EventConsumer.ConsumerRunner.Poll` | libs/sl-platform/src/sl_platform/consumer.py:95-102 | a poll handles its messages in order and only then moves the offset |
| `EventConsumer.PollIsARun` | libs/sl-platform/src/sl_platform/consumer.py:95-104 | one poll is a run of the delivery machine, an orderly one for each key none of whose messages was given up on |
| `DeliveryLimits.InOrderIff` | libs/sl-platform/src/sl_platform/outbox.py:105-130 | whichever relays may run and whether or not events may be given up on: every key is applied in order in every reachable state exactly when there is nothing to handle, no relay, or one relay and no giving up |
| `DeliveryLimits.TwoRelaysReorder` | libs/sl-platform/src/sl_platform/outbox.py:115 | any two relays can make a key's second event take effect without its first, with no event given up on |
| `DeliveryLimits.GivingUpSkips` | libs/sl-platform/src/sl_platform/consumer.py:125-127 | any one relay suffices for a given-up event to be skipped by the next one of its key |
| `Idempotency.IdempotencyStore.Claim` | libs/sl-platform/src/sl_platform/idempotency.py:99-159 | a claim inserts, takes an expired key afresh, takes over a lapsed lease, replays, or refuses, in the code's order of checks |
| `Idempotency.ClaimLasts` | libs/sl-platform/src/sl_platform/idempotency.py:121-159 | a key claimed when free is kept for its request for one lifetime from that clock reading: other requests are refused, the same one waits one lease and then takes over; after the lifetime it is free |
| `Idempotency.TakeoverLasts` | libs/sl-platform/src/sl_platform/idempotency.py:156-159 | a takeover starts a new lease under the same claim id and leaves the end of the lifetime where it was |
| `Idempotency.RecordLasts` | libs/sl-platform/src/sl_platform/idempotency.py:161-174 | a recorded response is replayed to the same request until the lifetime that began with the claim is over, and no longer |
| `Idempotency.RecordedIsReplayed` | libs/sl-platform/src/sl_platform/idempotency.py:161-174 | after claim and record the same request gets the recorded response and any other is refused, both without effect, until the key expires and is free again; other keys never notice, and a late release no longer deletes it |
| `Idempotency.ReleasedIsFree` | libs/sl-platform/src/sl_platform/idempotency.py:176-184 | after claim and release the key is as if it had never been used, for any request at any time |
| `Idempotency.PurgeIsInvisible` | libs/sl-platform/src/sl_platform/idempotency.py:186-192 | whoever asks after a purge gets the answer he would have got without it, and a second purge finds nothing |
| `Idempotency.IdempotencyStore.RunIdempotent` | libs/sl-platform/src/sl_platform/idempotency.py:216-231 | the work runs exactly when the key was claimed; its response or its release then acts on whatever rivals have left of the claimed row; a replay or refusal changes nothing; with no rival in between the key is left with the response, or free, and other keys are untouched |
| `IdempotencyRuns.AtMostOncePerKey` | libs/sl-platform/src/sl_platform/idempotency.py:99-231 | with any pods, crashes, takeovers, expiries and purges, if holders finish or give up in time: a key's work commits at most once until the key expires, a row is complete exactly when its work committed, every replay is that work's response, and a key has one live holder |
| `IdempotencyRuns.AskingAgainIsAnswered` | libs/sl-platform/src/sl_platform/idempotency.py:144-151 | whoever asks again for work that is done is handed the response of the key's last committed work, and nothing changes |
| `IdempotencyRuns.NoEarlyTakeover` | libs/sl-platform/src/sl_platform/idempotency.py:101-101 | a clock read before the row lock never takes a key over while its lease runs, and never from a live holder |
| `IdempotencyRuns.AtMostOnceIff` | libs/sl-platform/src/sl_platform/idempotency.py:161-184 | over every run from the start, late holders, late releases and takeovers included: the books are true in every state exactly when each finish finds its claimed row still there, incomplete and unexpired, the guard that record lacks |
| `IdempotencyRuns.FinishKeepsBooksIff` | libs/sl-platform/src/sl_platform/idempotency.py:165-174 | in any sound state, finishing, however late, keeps at-most-once exactly under that guard |
| `IdempotencyRuns.FailSparesRivalsIff` | libs/sl-platform/src/sl_platform/idempotency.py:176-184 | giving up, however late, leaves every live rival its claim exactly when none has taken the claim over |
| `IdempotencyRuns.StepKeepsSound` | libs/sl-platform/src/sl_platform/idempotency.py:121-184 | every step, timely or not, keeps the table sound if each finish meets the guard |
| `IdempotencyRuns.KeysRunOut` | libs/sl-platform/src/sl_platform/idempotency.py:156-157 | over every run, late holders included, a key never outlives one lifetime from the start of its use and a claim never blocks longer than one lease: a takeover prolongs the lease only |
| `IdempotencyRuns.ClaimStands` | libs/sl-platform/src/sl_platform/idempotency.py:99-159 | over every run after a claim, however late, crashed, stale or taken over its holders are: for one lifetime any other request is refused without effect, unless a holder of the claim gives it up |
| `IdempotencyRuns.StepKeepsInv` | libs/sl-platform/src/sl_platform/idempotency.py:121-159 | every timely step keeps the table, its holders and its history consistent |
| `IdempotencyRuns.LateFinishCommitsTwice` | libs/sl-platform/src/sl_platform/idempotency.py:167 | a holder that outlives its lease and still finishes commits the work a second time |
| `IdempotencyRuns.LateFailCommitsTwice` | libs/sl-platform/src/sl_platform/idempotency.py:181 | a holder that outlives its lease and gives up deletes the taken-over claim, so the work commits twice |
| `ShipmentRuns.NoLostUpdate` | services/shipment/src/shipment/services/shipments.py:205-256 | whatever the interleaving, a shipment's history is a legal path from CREATED to its current status, its attempt count is the number of DELIVERY_FAILED rows, and each timestamp is set exactly when its status was entered |
| `ShipmentRuns.TimestampsAreOfTheirChange` | services/shipment/src/shipment/services/shipments.py:227-237 | in every interleaving each timestamp is the time of the change that entered its status, and empty if there was none |
| `ShipmentRuns.TimestampsNeverMove` | services/shipment/src/shipment/services/shipments.py:227-237 | a timestamp once set stays what it is through every later change, edit and rival |
| `ShipmentRuns.ChangeTouchesItsColumns` | services/shipment/src/shipment/services/shipments.py:227-241 | one committed change, column by column: the status, the next version, one more attempt for a failed delivery, the timestamp of its own status, and nothing else |
| `ShipmentRuns.EventTellsTheRow` | services/shipment/src/shipment/services/shipments.py:182-201 | a commit's event carries the status and version of the row it leaves; an edit is of an editable shipment and moves its version only |
| `ShipmentRuns.EventsTellTheHistory` | services/shipment/src/shipment/services/shipments.py:242-255 | in sequence order a shipment's events are created, then its history, with strictly rising versions |
| `ShipmentRuns.CommitRaisesVersionByOne` | services/shipment/src/shipment/models.py:190-193 | each committed change raises the version by one, is a legal step from the status it replaces, and touches no other shipment |
| `ShipmentRuns.StepKeepsInv` | services/shipment/src/shipment/services/shipments.py:205-256 | each step of a pod keeps histories, locks and what open transactions have read or written consistent |
| `ShipmentService.Service.ChangeStatus` | services/shipment/src/shipment/services/shipments.py:205-256 | a stale version, a repeated or an illegal transition is refused without effect; otherwise row, history and event are written together |
| `ShipmentService.ChangeDecides` | services/shipment/src/shipment/services/shipments.py:219-224 | when a change is done, stale, repeated or illegal, case by case |
| `ShipmentService.DecideIsEnabled` | services/shipment/src/shipment/services/shipments.py:219-244 | the service accepts a change exactly when the interleaved machine lets it be written |
| `ShipmentService.Service.Moved` | services/shipment/src/shipment/services/shipments.py:227-241 | the columns a status change sets: the status, that status's own timestamp or the attempt count, and the next version |
| `ShipmentService.Service.Create` | services/shipment/src/shipment/services/shipments.py:87-161 | create reserves first, whether or not it learns the answer, and remembers the hold if it does; unless the shipment is then recorded, nothing of it is |
| `ShipmentService.Service.Compensate` | services/shipment/src/shipment/services/shipments.py:163-175 | compensation releases the remembered hold once, or leaves it to expire when inventory cannot be reached |
| `ShipmentService.Service.CreateShipment` | services/shipment/src/shipment/api/shipments.py:45-78 | the endpoint: a shipment is recorded, with history and event, exactly when its hold was taken and learned of, its inserts and its commit went through and it is new; otherwise nothing is recorded and a hold it knows of is given back if inventory can be reached; no hold is left to compensate |
| `ShipmentService.ChangeStatusIsARun` | services/shipment/src/shipment/services/shipments.py:205-256 | undisturbed, the code takes four steps of the interleaved machine |
| `ShipmentService.CreateIsARun` | services/shipment/src/shipment/services/shipments.py:114-160 | recording a shipment takes three steps of the interleaved machine |
| `ShipmentCreation.CompensateUndoesReserve` | services/shipment/src/shipment/services/shipments.py:163-173 | reserve then compensate leaves the shipment holding nothing and every position at what it was without lapsed holds |
| `ShipmentCreation.CreateHoldsIff` | services/shipment/src/shipment/services/shipments.py:87-175 | what a create of a shipment without rows leaves: rows if its request was accepted, HELD if it was recorded, its answer was lost or inventory could not be reached, released otherwise |
| `ShipmentCreation.CompensationLeavesNothing` | services/shipment/src/shipment/services/shipments.py:163-173 | whatever runs between reserve and compensation, unless the shipment is committed: all its rows are RELEASED, it has no share in any reservation, and nothing was dispatched for it |
| `ShipmentCreation.HoldWaitsForConfirmation` | services/shipment/src/shipment/services/shipments.py:98-99 | until the window ends, every row of an accepted reserve is still HELD, through any run of other transactions and repeats of the request |
| `ShipmentCreation.UnconfirmedHoldIsReclaimed` | services/shipment/src/shipment/services/shipments.py:98-99 | whatever runs in between, unless the shipment is confirmed or committed, a sweep after the window leaves every row of the create RELEASED |
| `ShipmentCreation.CreateSparesEarlierHoldsIff` | services/shipment/src/shipment/services/shipments.py:163-173 | a create leaves its shipment's earlier rows alone unless it took the hold, was not recorded, could reach inventory, and some row was HELD: compensation releases by shipment, not by attempt |
| `ShipmentCreation.DispatchRefusedAfterCreateIff` | services/shipment/src/shipment/services/shipments.py:163-173 | a recorded shipment whose stock is HELD can no longer be dispatched after a repeated create exactly when that create took the hold and could reach inventory |
| `ShipmentCreation.CreatingTwiceStrandsTheShipment` | services/shipment/src/shipment/services/shipments.py:45-50 | for every request created, recorded and confirmed, a second create under the same id that is answered and compensated releases all its rows, and its dispatch is refused |
| `ShipmentCreation.CreatingTwiceHappens` | services/shipment/src/shipment/services/shipments.py:45-50 | such a request exists from empty tables |
| `StateMachine.TransitionsAre` | services/shipment/src/shipment/state_machine.py:11-25 | a step is legal exactly when it is on the way to delivery, deals with a failed dispatch or delivery, or cancels a shipment that can still be edited |
| `StateMachine.VerdictIs` | services/shipment/src/shipment/state_machine.py:57-66 | a request to move is told repeated, illegal or allowed; no status leads to itself |
| `StateMachine.AnyNumberOfTries` | services/shipment/src/shipment/state_machine.py:14-19 | dispatch and delivery may each fail any number of times and the shipment can still be delivered |
| `StateMachine.RunClimbs` | services/shipment/src/shipment/state_machine.py:11-25 | along every legal run the rank never falls, and rises out of every status outside the two loops |
| `StateMachine.EnteredAtMostOnce` | services/shipment/src/shipment/state_machine.py:11-25 | DISPATCHED, PICKED_UP, DELIVERED, CANCELLED and every other status outside the two loops are entered at most once |
| `StateMachine.NeverBothDispatchedAndCancelled` | services/shipment/src/shipment/state_machine.py:7-10 | no run has both DISPATCHED and CANCELLED |
| `StateMachine.EveryRunCanFinish` | services/shipment/src/shipment/state_machine.py:27 | every legal run can be completed to one that ends in a terminal status |
| `Replicas.WarehouseReplica.UpsertWarehouse` | services/inventory/src/inventory/services/replicas.py:21-45 | a snapshot is stored unless the stored one is newer |
| `Replicas.StoredIsNewest` | services/inventory/src/inventory/services/replicas.py:38-45 | what is stored for a warehouse is one of the newest snapshots delivered |
| `Replicas.TimestampsRise` | services/inventory/src/inventory/services/replicas.py:43 | the stored timestamp never goes back |
| `Replicas.DistinctTimestampsConverge` | services/inventory/src/inventory/services/replicas.py:21-27 | with distinct timestamps every order and repetition of the deliveries stores the newest snapshot |
| `Replicas.OrderIsIrrelevantIff` | services/inventory/src/inventory/services/replicas.py:43 | delivery order is irrelevant exactly when no two different snapshots share the greatest timestamp |
| `HttpClient.CircuitBreaker.RecordFailure` | libs/sl-platform/src/sl_platform/http.py:50-53 | after a failure the breaker's fields are those of the extended history |
| `HttpClient.CircuitBreaker.RecordSuccess` | libs/sl-platform/src/sl_platform/http.py:46-48 | after a success the breaker's fields are those of the extended history |
| `HttpClient.OpenIff` | libs/sl-platform/src/sl_platform/http.py:41-44 | calls are refused exactly when the last threshold calls, at least one, all failed and the latest is recent |
| `HttpClient.TrailingFailuresAre` | libs/sl-platform/src/sl_platform/http.py:50-53 | the failure count is the length of the trailing run of failures |
| `HttpClient.ServiceClient.Request` | libs/sl-platform/src/sl_platform/http.py:74-122 | an open breaker sends nothing; otherwise sends stop at the first answer that is not retryable, at most once plus retries, exactly once for a write without a key; each send is recorded |
| `HttpClient.ResultTells` | libs/sl-platform/src/sl_platform/http.py:99-122 | a response below 400 or an error that is none of 502, 503, 504 is the last send's; unavailable means every attempt was made and answered 502, 503, 504 or not at all |
| `HttpClient.SilenceExhausts` | libs/sl-platform/src/sl_platform/http.py:96-97 | if nobody answers, a safe request or one with a key is sent once and again for each retry, any other once |
| `HttpClient.CallsTell` | libs/sl-platform/src/sl_platform/http.py:99-112 | each send counts for the breaker: 502, 503, 504 or no answer as a failure at its time, anything else as a success |
| `HttpClient.ServiceClient.EmptyKeyIsSentAgain` | libs/sl-platform/src/sl_platform/http.py:90-122 | a write whose key is empty goes out a second time, with no header on either send |
| `HttpClient.RepeatedUnprotectedIff` | libs/sl-platform/src/sl_platform/http.py:90-97 | some replies make a write go out more than once without its protecting header, exactly when its key is given but empty and there is a retry |
| `RefreshTokens.AuthService.RefreshTokens` | services/identity/src/identity/services/auth.py:78-99 | refresh rotates an active unexpired token, and answers a revoked one by revoking all of its user's tokens |
| `RefreshTokens.RefreshDecides` | services/identity/src/identity/services/auth.py:81-93 | a refresh issues a token exactly for a known, unrevoked and unexpired one of an active user, and each refusal has its exact case |
| `RefreshTokens.RotationHandsOver` | services/identity/src/identity/services/auth.py:95-99 | the new token is the same user's for one lifetime from now, the old one is revoked and names it, and no other row changes |
| `RefreshTokens.LoginLasts` | services/identity/src/identity/services/auth.py:109-120 | a token issued at a login can be refreshed until its lifetime is over and not after |
| `RefreshTokens.AuthService.LogoutToken` | services/identity/src/identity/services/auth.py:101-107 | logout revokes the caller's own token once |
| `RefreshTokens.LogoutDecides` | services/identity/src/identity/services/auth.py:101-107 | a logout ends the caller's own token and no other, and an earlier revocation keeps its time |
| `RefreshTokens.RevokeAllEndsSessions` | services/identity/src/identity/repository.py:85-91 | over every run: after a revoke-all no session of the user from before it comes back; his active tokens descend from later logins, and each earlier token is answered as a replay that ends those too |
| `RefreshTokens.RotationIsExclusive` | services/identity/src/identity/services/auth.py:95-98 | over every run: no token replaces two, each is exchanged at most once, and at most one token per login is active |
| `RefreshTokens.RotationChains` | services/identity/src/identity/services/auth.py:95-98 | a chain of replacements never comes back to a token, and only its last can be active |
| `RefreshTokens.ActiveTokensAreFew` | services/identity/src/identity/services/auth.py:109-110 | a user never has more active tokens than logins since the last revoke-all |
| `RefreshTokens.ReplayKillsEverySession` | services/identity/src/identity/services/auth.py:84-88 | an exchanged token that comes back yields nothing and leaves its user no active token |

## Left out

- Hold ids: the source draws random ids and orders rows by them; here a row's id is its place in insertion order. No proof depends on which of two rows comes first.
- Emitted `stock.*` events, the expiry time in a reservation's answer, release reasons, actors, notes, reorder levels, zones and all display fields: carried by no property.
- SKU facts, addresses, parcels, money, reference numbers and promised dates: opaque or dropped.
- 32-bit column widths and the upper limits on request size: quantities and counters are unbounded integers, and requests may have any number of lines.
- Several readings of the clock inside one transaction: each step has one `now`. The idempotency runs keep the reading before the lock apart from the lock.
- Waits on unique indexes between two uncommitted inserts: a constraint is a guard at the insert.
- Roles, row scoping, soft deletion, optimistic versions of stock items and login lockout: each is one branch.
- Password checks, token signing and hashing: hashes are injective, so a raw token and its row stand for each other, and a payload hash stands for the payload.
- The name-based shipment id: an injective function of owner and key, here simply the shipment of the request.
- A commit whose answer is lost: whether a transaction committed is always known to its caller.
- Relay `last_error` texts, poll intervals, back-off sleeps, unparseable messages, telemetry and logging.
- Topics with several consumer names: one consumer at a time, with its own dedupe table.
- A create or status request without an idempotency key: `run_idempotent` then only runs and commits.
- IdempotencyRuns.AtMostOncePerKey: a failed work and its release are one step.
- ReservationService.Service.Reserve: the reads before the lock and the writes after it are one atomic step; the race between them is `ReservePastCheck`, the lock steps are in `Locks`, and `Locks.SerialInFinishOrder` lets them be taken as one.
- Locks.NoDeadlock: row locks on items and holds only; which holds have lapsed is left open, so an expiry may pick any HELD rows on its items.
- ShipmentService.Service.CreateShipment: the idempotency claim around it is `IdempotencyStore.RunIdempotent`; the two are not joined in one machine.
- EndToEnd.LifecycleReachesStock: the synchronous reserve of a create is one of the stock transactions; that it precedes the created message is part of the hypothesis that the holds are HELD then.
- Package editing, search, listing, warehouse administration, seeds and migrations: nothing hard to state.
