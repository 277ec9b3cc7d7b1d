# Reservation queue: model and proofs

A ticketing backend lets providers sell the seats of a screening. A customer's reservation request
is saved as REQUESTED, numbered by a first-in-first-out sequence, and later claimed by a worker under
a `(worker, token)` handle with a lease. The worker renews the lease with heartbeats while it looks
for sold seats and then closes the request: CONFIRMED with a reservation, REJECTED for a sold seat,
released for another attempt, or FAILED. Two budgets bound the work: T transient failures
(`maxTransientFailures`, at least 1) and L lease timeouts (`maxLeaseTimeouts`, possibly 0).

The project models that queue once and proves everything else against it.

| file | content |
|---|---|
| `Domain`, `Queue` | the entities; the queue as a value and the effect of every repository operation on it |
| `Protocol`, `ProtocolInvariant`, `Safety`, `Progress`, `Leases` | any number of workers acting on the queue step by step; the invariant; what holds in every reachable state and along every run |
| `InMemoryStore`, `InMemoryWorkRepository`, `Service`, `Processor` | the classes with their maps and loops, proved against the queue; every dependency call of the processor may throw |
| `SerialRuns`, `Drain`, `Polling` | service and processor in one process as protocol runs; draining as greedy allocation |
| `Postgres`, `PostgresViews`, `PostgresProtocol`, `PostgresProgress` | tables, schema constraints and transactions; every transaction of every worker refines a protocol step, and none is ever stuck |
| `AdapterAgreement` | the two work repositories answer alike |
| `SplitConfirm`, `SplitRuns`, `InFlight` | the in-memory confirm cut at its await: what can run in between, whole runs with one pass in flight, and any number in flight |
| `EdgeCases` | corners with their exact condition and an input |
| `WorkerService`, `Timing` | the polling worker's timers and heartbeats; deployed workers meet the hypotheses of the lease theorems |
| `Availability`, `SeatLookup`, `Sums` | the read side against the write side; finite sums |

Where a property fails, the model keeps the code as it is and says exactly when it holds:

- The in-memory confirm checks, awaits, and writes without checking again. With one item in flight
  this is safe in every run (`OnePassInFlightIsSafe`). With two in flight seats stay disjoint if and
  only if their demands do not overlap (`TwoInFlightAreSafeIff`, `TwoInFlightCanSellTwice`), and with
  any number if and only if no two that overlap and were pending at once are both written
  (`DisjointIffNoClash`). The claim
  is still owned when the writes come if and only if nobody claimed the request, and no other confirm of
  it was written, meanwhile (`FencedIff`), for which it suffices that claims read clocks before the
  lease's expiry (`FencedWithinLease`, `FencedBeforeDeadline`). Otherwise a former holder's writes
  go through (`TakeoverDuringAwaitIsIgnored`): terminal states are kept if and only if the request was
  still open (`WritesKeepHistoryIff`), so a REJECTED or FAILED row can become CONFIRMED
  (`ClosedDuringAwaitIsOverwritten`). The Postgres adapter needs no such hypothesis.
- A heartbeat refusal that arrives late stops the heartbeats of the item then in flight
  (`TimerRunsIff` says exactly when the timer survives, `LateReplyStopsNextItem` is the run).
- Ownership is decided by handle, not by time: an expired claim that nobody took over may still be
  renewed and confirmed (`ExpiredClaimIsStillGood`).
- A claim can return no item although others wait, namely when the head has just been failed for its
  lease budget (`ClaimComesBackEmpty`).
- The constraints of the tables refuse calls that the in-memory maps accept; the two adapters agree if
  and only if the calls fit the constraints, and the processor's calls always do (`PostgresAgreesIff`,
  `StrayAttemptIsServedInMemoryOnly`).
- The attempts constraint also admits rejected and failed rows without a reason, which nothing writes and
  the reader refuses (`AdmittedIff`, `AdmittedReadsBackIff`, `NullReasonIsAdmitted`).
- Running out of safe sequence numbers leaves a stored request without metadata
  (`SaveBeyondTheLastSequence`).

Assumptions: claim tokens and reservation ids are fresh when they are generated; Postgres transactions
are atomic, honour the declared constraints, and `for update skip locked` may skip any set of rows; T
and L are the same for all workers; runs start with freshly REQUESTED rows. Instants are integer
milliseconds. A crash is a worker that never acts again.

Nothing in this project executes the original program.

## Model

| member | source | states |
|---|---|---|
| Safety.NoSeatSoldTwice | src/infrastructure/repositories/postgres/postgres-reservation-request-work.repository.ts:68-132 | In every reachable state, for any number of workers, crashes, takeovers and rollbacks, two reservations of one screening share no seat. |
| Safety.ConfirmedMeansOneReservation | src/application/movie-reservations/in-process-reservation-request-processor.ts:228-270 | A request is CONFIRMED if and only if exactly one reservation names it (otherwise none does), and that reservation grants the provider, screening, seats and user asked for, inside the auditorium of a screening the provider owns. |
| Safety.RejectionStaysJustified | src/infrastructure/repositories/postgres/postgres-reservation-request-work.repository.ts:95-132 | A rejection records a reservation of another request that shares a seat on the screening, and along every later run that reservation stays and the record stays true. |
| Safety.LookupAfterAbortFinds | src/infrastructure/repositories/postgres/postgres-reservation-request-work.repository.ts:105-112 | After a confirm was rolled back on the seat constraint, whatever other workers do before the follow-up lookup, that lookup cannot come back empty and some answer is possible. |
| Safety.HistoryIsKept | src/infrastructure/repositories/in-memory/in-memory-reservation-request-work.repository.ts:283-306 | Along every run reservations are never dropped or changed, no request changes what it asked for or its sequence, and a closed request keeps its row and its attempt log for good. |
| Safety.OneHolder | src/infrastructure/repositories/in-memory/in-memory-reservation-request-work.repository.ts:130-153 | At most one claim handle of a request is valid at a time. |
| Safety.LostStaysLost | src/infrastructure/repositories/in-memory/in-memory-reservation-request-work.repository.ts:283-306 | A handle that stopped being valid never becomes valid again. |
| Safety.LostWorkerIsHarmless | src/infrastructure/repositories/in-memory/in-memory-reservation-request-work.repository.ts:283-306 | Once its handle is lost, no later action of that worker changes requests, counters, reservations or attempts. |
| Safety.ClaimsAreBounded | src/infrastructure/repositories/in-memory/in-memory-reservation-request-work.repository.ts:79-127 | No request is successfully claimed more than T + L times. |
| Safety.LogDeterminesStatus | src/application/movie-reservations/in-process-reservation-request-processor.ts:283-326 | The attempt log determines the failure counter and, outside PROCESSING, the status; only its last entry can be anything but an unexpected error. |
| Safety.FailureUsedUpABudget | src/application/movie-reservations/in-process-reservation-request-processor.ts:283-326 | A FAILED request ended either with its T-th unexpected error or with a lease timeout beyond L of them. |
| Safety.NobodyIsStranded | src/infrastructure/repositories/in-memory/in-memory-reservation-request-work.repository.ts:46-58 | In every reachable state there is a time from which every open request is eligible, unless a lease is renewed again. |
| ProtocolInvariant.StepKeepsInv | src/infrastructure/repositories/postgres/postgres-reservation-request-state-store.ts:43-121 | Every action of every worker keeps the whole invariant: rows, logs, counters and claim counts agree, bookings are justified and disjoint, sequences are distinct. |
| ProtocolInvariant.ReachableInv | src/infrastructure/repositories/postgres/postgres-reservation-request-state-store.ts:43-238 | The invariant holds in every state any run reaches. |
| ProtocolInvariant.CommitKeepsBookings | src/infrastructure/repositories/postgres/postgres-reservation-store.ts:57-81 | Selling seats nobody holds keeps all sales pairwise disjoint and each accounted for by a CONFIRMED request whose last attempt names it. |
| ProtocolInvariant.SettleKeepsInv | src/infrastructure/repositories/postgres/postgres-reservation-request-state-store.ts:209-258 | Closing a PROCESSING request with one attempt disturbs no other request, worker or booking. |
| ProtocolInvariant.NewClaimKeepsInv | src/infrastructure/repositories/postgres/postgres-reservation-request-claimer.ts:147-170 | A claim with a fresh token keeps the invariant: one more claim of this row, one new ticket that matches it. |
| ProtocolInvariant.RecoverKeepsInv | src/application/movie-reservations/in-process-reservation-request-processor.ts:283-326 | Releasing or failing after an error keeps the log, the counter and the status in step. |
| Progress.WorkDecreases | src/infrastructure/repositories/in-memory/in-memory-reservation-request-work.repository.ts:79-127 | Every write that is neither a new request nor a heartbeat strictly lowers the remaining work, summed over requests from status, T minus failures and L minus timeouts. |
| Progress.WorkIsBounded | src/infrastructure/repositories/in-memory/in-memory-reservation-request-work.repository.ts:79-127 | A run makes at most 2T + L such writes per request. |
| Leases.PunctualHolds | src/di/movie-reservations/fake-reservation-request-worker.service.ts:99-137 | As long as renewals are at most H < leaseMs apart and the worker has not closed its item, it holds its claim, without lease timeouts, and the lease outlasts every renewal by leaseMs. |
| Leases.PunctualWorkerIsLeftAlone | src/config.ts:255-261 | No claim in the run takes over or times out the item of such a worker. |
| Drain.DrainIsGreedy | src/application/movie-reservations/in-process-reservation-request-processor.ts:88-326 | Draining equals first-come-first-served allocation: after exactly the planned number of calls every waiting request has the status a one-pass fold in sequence order awards it, FAILED ones after exactly T transient failures, the others with their counter unchanged, each log grown by exactly those attempts; the seats sold are those the fold takes, nothing else changed, and no later call finds work. |
| Drain.CallFollowsAward | src/application/movie-reservations/in-process-reservation-request-processor.ts:129-172 | One call on a non-empty queue touches only the first request in sequence order: REJECTED on a seat conflict, else one failure counted (released until the T-th, then FAILED) on a policy hit, else CONFIRMED with its seats. |
| Drain.CallsOfFreshQueue | src/application/movie-reservations/in-process-reservation-request-processor.ts:283-326 | For fresh requests the drain takes confirmed + rejected + T * failed calls. |
| Drain.ConflictIsSoldSeat | src/infrastructure/repositories/postgres/postgres-reservation-store.ts:23-49 | A request conflicts exactly when one of its seats is in the set of seats sold for its screening. |
| Drain.QueueHasOrder | src/domain/movie-reservations/reservation-request-sequence.ts:14-20 | Distinct sequences always admit a queue order, so the drain theorem applies to every queue. |
| Drain.IdleQueueIsReady | src/application/movie-reservations/in-process-reservation-request-processor.ts:88-120 | Every reachable queue that nobody is working on satisfies the hypotheses of the drain theorem. |
| Drain.FaultFreeCallIsQuiet | src/application/movie-reservations/in-process-reservation-request-processor.ts:129-172 | A processor call in which no dependency throws, on a well-formed request with a new reservation id, is exactly what the drain theorem assumes of a call. |
| Polling.DrainQueue | src/di/movie-reservations/fake-reservation-request-worker.service.ts:77-94 | The classes themselves: polling the in-memory store once per planned call leaves the queue drained as the greedy plan says, with nothing eligible for any later claim. |
| Polling.Poll | src/di/movie-reservations/fake-reservation-request-worker.service.ts:99-121 | One fault-free poll claims the head and gives it the verdict that conflict, policy and seats dictate, adds at most the generated reservation, and keeps all requests well formed. |
| Processor.ReservationRequestProcessor.ProcessNextPendingRequest | src/application/movie-reservations/in-process-reservation-request-processor.ts:88-120 | For every choice of throwing calls, one call changes nothing, fails the head for its lease budget, or claims the head and does to it exactly what conflict, policy, seats and those throws dictate, and reports exactly that, with the stored request and the attempts remaining. An item left PROCESSING is claimed under the worker's id and token from the start reading for claimLeaseMs; attempts open at the start reading and close at the clock reading of their own path; a sale stores the request's own reservation. |
| Processor.ReservationRequestProcessor.ProcessClaimedWorkItem | src/application/movie-reservations/in-process-reservation-request-processor.ts:129-172 | For every choice of throwing calls the outcome for an owned item is determined: at most one attempt is appended, a persisted CONFIRMED or REJECTED is never undone, a failed try block releases or fails it, and it stays PROCESSING exactly when its announcement threw or the catch block's own writes threw after a failed try block. |
| Processor.ReservationRequestProcessor.Attempting | src/application/movie-reservations/in-process-reservation-request-processor.ts:142-160 | The try block: the terminal flag is set exactly when CONFIRMED or REJECTED was persisted, which happens exactly when no earlier call threw and conflict, policy and seats say so; otherwise nothing has changed. |
| Processor.ReservationRequestProcessor.ConfirmClaimedWorkItem | src/application/movie-reservations/in-process-reservation-request-processor.ts:228-270 | An owned item is left alone exactly when its seats are not a non-empty list of distinct seats, the reservation id is used or a call throws; otherwise it is sold exactly when no seat is taken and else rejected by the repository, which is passed on. The returned reservation grants exactly what the request asked for. |
| Processor.ReservationRequestProcessor.HandleUnexpectedFailure | src/application/movie-reservations/in-process-reservation-request-processor.ts:283-326 | Settles exactly when the clock and the write succeed and the claim is still owned, with an attempt that closes at that clock reading; one failure is counted, released while attempts remain and failed otherwise, and the stored request and the attempts remaining are reported. |
| Timing.ClaimIsTimed | src/application/movie-reservations/in-process-reservation-request-processor.ts:93-100 | A claim made by the processor is for its own worker, token and budgets, and leases claimLeaseMs from the moment its clock was read. |
| Timing.WorkersRunTimed | src/di/movie-reservations/fake-reservation-request-worker.service.ts:99-137 | Any run whose claims come from deployed processors and whose heartbeats come from their services, on one clock that does not go back, is a timed run. |
| Timing.PunctualWorkerKeepsItsItem | src/config.ts:255-261 | So a deployed worker that renews more often than the lease lasts still holds its item, and no claim by any worker takes it. |
| Processor.ThrowsDecide | src/application/movie-reservations/in-process-reservation-request-processor.ts:129-172 | An item is sold, or rejected, only if no call on that path threw, and then whenever conflict, policy and seats say so; it stays claimed only if its announcement or the catch block's own calls threw; the recording calls after a write decide nothing. |
| Processor.ClaimedIsOwned | src/application/movie-reservations/in-process-reservation-request-processor.ts:93-100 | A successful claim hands out a ticket that owns its request. |
| SerialRuns.CallIsRun | src/application/movie-reservations/in-process-reservation-request-processor.ts:88-172 | Whatever one processor call does, with whatever faults, is a path of protocol actions from any reachable state, ending in the same queue. |
| SerialRuns.HistoryIsRun | src/application/movie-reservations/in-process-reservation-request-processor.ts:88-172 | Every interleaving of accepted requests and processor calls from a store of freshly requested rows is, state by state, one protocol run. |
| SerialRuns.HistoryIsSafe | src/application/movie-reservations/movie-reservations.service.ts:85-111 | At every point of such a history no seat is sold twice, a request is CONFIRMED exactly when one reservation names it and otherwise none does, demands lie in an auditorium of the provider's screening and reservations grant them, rejections name another request's reservation that shares a seat, and nothing later touches closed requests or reservations. |
| SerialRuns.Serve | src/application/movie-reservations/movie-reservations.service.ts:85-111 | The classes themselves: during any list of requests and polls, with any faults, on a store of freshly requested rows, all of that holds after every command, and between any two commands closed requests and reservations stay as they were. |
| SerialRuns.Obey | src/application/movie-reservations/movie-reservations.service.ts:85-111 | A request is accepted unless it is ill-placed, repeats a seat or reuses an id, and then is one save; a poll is one processor call under the worker's id and lease unless the claim itself threw; anything else changes nothing. |
| SerialRuns.FreshSeedsMayStart | src/infrastructure/repositories/in-memory/in-memory-movie-reservation.store.ts:97-107 | A store created with distinct, well-placed, freshly requested requests and nothing sold is a state such histories may start from. |
| InMemoryWorkRepository.WorkRepository.FindNextWorkItem | src/infrastructure/repositories/in-memory/in-memory-reservation-request-work.repository.ts:43-88 | In whatever order the map is scanned, the item kept is, among requests that are REQUESTED with attempts left or PROCESSING with their lease run out, the one of least sequence, with the counters the claim will have; none means there is none. |
| InMemoryWorkRepository.WorkRepository.ClaimNextPendingReservationRequest | src/infrastructure/repositories/in-memory/in-memory-reservation-request-work.repository.ts:38-128 | No item is returned exactly when nothing is eligible or the head had spent its lease budget and has just been failed, with a lease-timeout attempt at the claim time; otherwise the head is PROCESSING under the input's worker, token and lease, and the item says exactly that. |
| InMemoryWorkRepository.WorkRepository.StoreClaimed | src/infrastructure/repositories/in-memory/in-memory-reservation-request-work.repository.ts:100-127 | The writes of a claim replace one row and keep sequences distinct. |
| InMemoryWorkRepository.WorkRepository.HeartbeatClaimedReservationRequest | src/infrastructure/repositories/in-memory/in-memory-reservation-request-work.repository.ts:130-153 | Returns true exactly when the request is PROCESSING under the item's worker and token, and then rewrites expiry and heartbeat time of that claim only. |
| InMemoryWorkRepository.WorkRepository.FindConflictingConfirmedReservation | src/infrastructure/repositories/in-memory/in-memory-reservation-request-work.repository.ts:155-172 | Finds a stored reservation of the screening that shares a listed seat if and only if there is one. |
| InMemoryWorkRepository.WorkRepository.ConfirmClaimedReservationRequest | src/infrastructure/repositories/in-memory/in-memory-reservation-request-work.repository.ts:174-223 | Succeeds exactly when the claim is owned and the reservation id is new; then confirms if and only if no seat is taken, else rejects naming a real conflict, and returns the request as stored. An error changes nothing and is the ownership check's, or that the reservation exists. |
| InMemoryWorkRepository.WorkRepository.FinishConfirm | src/infrastructure/repositories/in-memory/in-memory-reservation-request-work.repository.ts:185-222 | What is written after the awaited lookup: reservation, status, claim and attempt together, or the rejection that names the found reservation. |
| InMemoryWorkRepository.WorkRepository.RejectClaimedReservationRequest | src/infrastructure/repositories/in-memory/in-memory-reservation-request-work.repository.ts:225-241 | Closes as REJECTED and returns the request as stored exactly when the claim is owned; otherwise nothing changes and the ownership check's error is returned. |
| InMemoryWorkRepository.WorkRepository.ReleaseClaimedReservationRequestForRetry | src/infrastructure/repositories/in-memory/in-memory-reservation-request-work.repository.ts:243-260 | Back to REQUESTED with one more transient failure, returned as stored, exactly when the claim is owned; otherwise nothing changes and the ownership check's error is returned. |
| InMemoryWorkRepository.WorkRepository.FailClaimedReservationRequest | src/infrastructure/repositories/in-memory/in-memory-reservation-request-work.repository.ts:262-275 | Closes as FAILED with one more transient failure, returned as stored, exactly when the claim is owned; otherwise nothing changes and the ownership check's error is returned. |
| InMemoryWorkRepository.WorkRepository.RequireClaimedProcessingRequest | src/infrastructure/repositories/in-memory/in-memory-reservation-request-work.repository.ts:283-306 | The four checks pass exactly when the stored request is PROCESSING under the item's sequence, worker and token, and then return it; each error is given under exactly its own condition. |
| InMemoryWorkRepository.WorkRepository.Close | src/infrastructure/repositories/in-memory/in-memory-reservation-request-work.repository.ts:308-328 | Status, counter, cleared claim and attempt add up to the queue's one settling step. |
| InMemoryWorkRepository.WorkRepository.FailExpiredClaimAfterLeaseTimeoutBudget | src/infrastructure/repositories/in-memory/in-memory-reservation-request-work.repository.ts:330-352 | Closes as FAILED with a lease-timeout attempt under the stored sequence, without counting a transient failure. |
| InMemoryWorkRepository.LookupFindsConflicts | src/infrastructure/repositories/in-memory/in-memory-reservation-request-work.repository.ts:155-172 | The lookup comes back empty exactly when the queue has no conflict, and what it names is a conflict. |
| InMemoryStore.SharedSeatIsConflict | src/infrastructure/repositories/in-memory/in-memory-reservation-request-work.repository.ts:165-171 | Sharing a listed seat on the same screening is the queue's notion of conflict. |
| InMemoryStore.Store.constructor | src/infrastructure/repositories/in-memory/in-memory-movie-reservation.store.ts:61-74 | A store without data stands for the empty queue, and sequences start at 1. |
| InMemoryStore.Store.Load | src/infrastructure/repositories/in-memory/in-memory-movie-reservation.store.ts:97-107 | Loading succeeds exactly when request ids are distinct and few enough; then exactly the given requests are queued in the order given, a reservation is stored for exactly the given ids and is the last given one, and each request's log is its attempts in list order. |
| InMemoryStore.SeededReservationIds | src/infrastructure/repositories/in-memory/in-memory-movie-reservation.store.ts:101-103 | A reservation id is loaded if and only if some given reservation has it. |
| InMemoryStore.SeededLast | src/infrastructure/repositories/in-memory/in-memory-movie-reservation.store.ts:101-103 | Of the given reservations with one id the last one is loaded. |
| InMemoryStore.SeededLog | src/infrastructure/repositories/in-memory/in-memory-movie-reservation.store.ts:105-107 | An attempt stands in its request's loaded log after exactly the earlier attempts about that request. |
| InMemoryStore.SeededInOrder | src/infrastructure/repositories/in-memory/in-memory-movie-reservation.store.ts:97-99 | The i-th loaded request has sequence i + 1, its given status and counters at zero. |
| InMemoryStore.Store.SaveReservationRequest | src/infrastructure/repositories/in-memory/in-memory-movie-reservation.store.ts:114-131 | A new request goes behind all others with zero counters; a repeated id changes nothing; running out of safe integers leaves the request stored without metadata. |
| InMemoryStore.Store.RecordProcessingAttempt | src/infrastructure/repositories/in-memory/in-memory-movie-reservation.store.ts:156-160 | One attempt is appended to its request's log. |
| Service.RequestReservation | src/application/movie-reservations/movie-reservations.service.ts:85-111 | Accepted exactly when the provider owns the screening, the seats are a non-empty list of distinct seats of its auditorium, the id is new and a sequence is left; then it waits at the back of the queue as asked for. Each refusal is given under exactly its own condition, the first foreign seat being named, and every refusal but sequence exhaustion changes nothing. |
| Service.AssertSeatsBelongToScreening | src/application/movie-reservations/movie-reservations.service.ts:182-195 | Reports the first listed seat that the auditorium does not have, and none exactly when it has them all. |
| Domain.SizeTestFindsDuplicates | src/domain/movie-reservations/reservation.ts:39-52 | Comparing the size of the seat set with the length of the list rejects exactly the lists that repeat a seat. |
| Domain.FactoriesAcceptExactly | src/domain/movie-reservations/reservation-request.ts:40-54 | Both factories accept exactly the non-empty lists of distinct seats, keep every field, start a request as REQUESTED, and say when it is emptiness they refuse. |
| Domain.StatusChangesAreGuarded | src/domain/movie-reservations/reservation-request-transitions.ts:7-60 | Nothing leaves a terminal status, PROCESSING is entered from REQUESTED alone and left for each end alone, and a change keeps the rest of the request. |
| PostgresProtocol.StepRefines | src/infrastructure/repositories/postgres/postgres-reservation-request-work.repository.ts:51-156 | Every transaction of every worker on tables that satisfy the schema is one action of the protocol, and leaves the schema satisfied. |
| PostgresProtocol.PgRunIsRun | src/infrastructure/repositories/postgres/postgres-reservation-request-work.repository.ts:68-132 | Every database run, with any rows skipped as locked, is state by state a protocol run. |
| PostgresProtocol.PgReachableIsReachable | src/infrastructure/repositories/postgres/postgres-reservation-request-work.repository.ts:68-132 | Every reachable database satisfies the schema and stands for a reachable protocol state, so every safety theorem holds of it. |
| PostgresProtocol.PgLeadsLeads | src/infrastructure/repositories/postgres/postgres-reservation-request-work.repository.ts:68-132 | Whatever follows in the database follows in the protocol, which carries the theorems about later states over. |
| PostgresProtocol.TablesNeverSellTwice | src/infrastructure/database/migrations/202605290001_create_movie_reservation_schema.ts:146-171 | In the tables themselves, two reservations of one screening never list the same seat. |
| PostgresProtocol.TablesMatchConfirmed | src/infrastructure/repositories/postgres/postgres-reservation-store.ts:57-81 | A CONFIRMED row has exactly one reservation row, listing the very seats and the user of the request. |
| PostgresProtocol.FollowUpLookupFinds | src/infrastructure/repositories/postgres/postgres-reservation-request-work.repository.ts:105-112 | The lookup after a rolled-back confirm always returns a reservation, so the original error is never rethrown there. |
| PostgresProgress.SaveIsPossible | src/infrastructure/repositories/postgres/postgres-movie-reservation.repository.ts:181-224 | Every well-placed new request for distinct seats can be saved; its row waits with zero counters and exactly its seats, and nothing else changes. |
| PostgresProgress.ClaimIsPossible | src/infrastructure/repositories/postgres/postgres-reservation-request-claimer.ts:44-88 | A worker with a fresh token can always claim, whatever rows are locked: without a ticket exactly when no unlocked row is claimable or the least one was out of lease budget and is now FAILED, else the row is PROCESSING under its token and lease. |
| PostgresProgress.LookupIsPossible | src/infrastructure/repositories/postgres/postgres-reservation-store.ts:23-49 | The lookup always answers, with the least reservation that holds one of the seats if any does, and the worker goes on to reject or to confirm. |
| PostgresProgress.ConfirmIsPossible | src/infrastructure/repositories/postgres/postgres-reservation-request-work.repository.ts:68-89 | A worker whose lookup found nothing can confirm: owned, with a new id and free seats, the row is CONFIRMED with its reservation and seats; with a seat taken nothing is written and it looks again; otherwise nothing is written and it is in the catch block. |
| PostgresProgress.RejectIsPossible | src/infrastructure/repositories/postgres/postgres-reservation-request-state-store.ts:61-77 | A worker whose lookup named a reservation can reject: owned, the row is REJECTED and the attempt row says for which reservation; otherwise nothing is written. |
| PostgresProgress.RecoveryIsPossible | src/infrastructure/repositories/postgres/postgres-reservation-request-state-store.ts:82-121 | A worker in the catch block can settle: owned, the row has one failure more, no claim, and is REQUESTED while failures are below T and FAILED otherwise. |
| PostgresProgress.OtherStepsArePossible | src/infrastructure/repositories/postgres/postgres-reservation-request-claimer.ts:90-106 | A heartbeat can always be sent and renews the lease if and only if the row is PROCESSING under the worker and token; a call can throw and a pass can end at any point. |
| PostgresProgress.SeatConstraintEndsInRejection | src/infrastructure/repositories/postgres/postgres-reservation-request-work.repository.ts:95-132 | A confirm stopped by the seat constraint, its lookup and its rejection in a row end with the request REJECTED. |
| PostgresProtocol.ConfirmKeepsSchema | src/infrastructure/database/migrations/202605290001_create_movie_reservation_schema.ts:129-171 | A committed confirm satisfies every foreign key, unique and check constraint again. |
| PostgresProtocol.SaveKeepsSchema | src/infrastructure/repositories/postgres/postgres-movie-reservation.repository.ts:181-224 | A saved request satisfies every constraint again. |
| PostgresProtocol.ConfirmRefines | src/infrastructure/repositories/postgres/postgres-reservation-request-work.repository.ts:68-132 | A confirm transaction is a protocol commit, an abort on the seat constraint, or an error, in every state the invariant allows. |
| PostgresProtocol.HandleRefines | src/application/movie-reservations/in-process-reservation-request-processor.ts:283-326 | The release-or-fail transaction is the protocol's recovery step. |
| PostgresViews.ConfirmTxView | src/infrastructure/repositories/postgres/postgres-reservation-request-work.repository.ts:68-89 | Confirm commits exactly when the claim is owned, the reservation is new and no seat is sold, and then is the queue's sale; it fails on the seat constraint exactly when only the seats stand in the way. |
| PostgresViews.ConfirmOutcomes | src/infrastructure/repositories/postgres/postgres-reservation-request-work.repository.ts:68-89 | For any ticket, reservation and attempt: exactly when the confirm transaction commits, and exactly when the seat constraint stops it, in terms of the queue. |
| PostgresViews.ClaimQueryFindsHead | src/infrastructure/repositories/postgres/postgres-reservation-request-claimer.ts:115-142 | The claim query's predicate equals the scan's skip rules: it returns the least-sequence eligible row outside the locked ones, or nothing if there is none. |
| PostgresViews.ClaimTxView | src/infrastructure/repositories/postgres/postgres-reservation-request-claimer.ts:44-88 | The claim transaction is the queue's claim: a ticket that matches the row, or a failed head exactly when its lease budget is spent. |
| PostgresViews.HeartbeatTxView | src/infrastructure/repositories/postgres/postgres-reservation-request-claimer.ts:90-106 | The heartbeat updates a row exactly when the handle is valid, and renews its lease. |
| PostgresViews.SettleTxView | src/infrastructure/repositories/postgres/postgres-reservation-request-state-store.ts:171-238 | The ownership re-check passes exactly when the ticket owns the row, and the update plus attempt row are the queue's settling step. |
| PostgresViews.SaveTxView | src/infrastructure/repositories/postgres/postgres-movie-reservation.repository.ts:181-224 | Saving adds a well-placed request with its seat rows, REQUESTED, with zero counters and the sequence the identity column gave. |
| PostgresViews.SaveOutcomes | src/infrastructure/repositories/postgres/postgres-movie-reservation.repository.ts:181-224 | A save succeeds if and only if the provider owns the screening, the id is new and the listed seats are distinct seats of its auditorium; it is refused as a duplicate if and only if the screening fits and the id is taken. |
| PostgresViews.LookupFindsConflict | src/infrastructure/repositories/postgres/postgres-reservation-store.ts:23-49 | The conflict query is empty exactly when the queue has no conflict, and names a conflict otherwise. |
| PostgresViews.SchemaKeepsSeatsDisjoint | src/infrastructure/database/migrations/202605290001_create_movie_reservation_schema.ts:146-171 | The unique (screening, seat) constraint alone keeps the reservations of a screening disjoint. |
| PostgresViews.InsertExactly | src/infrastructure/repositories/postgres/postgres-reservation-store.ts:72-80 | Inserting a reservation's seats one by one succeeds exactly when none repeats and none is taken, and then adds exactly those rows; it stops on the seat constraint exactly when the first seat that cannot be inserted is held by somebody else. |
| PostgresViews.AttemptAppended | src/infrastructure/repositories/postgres/postgres-reservation-request-state-store.ts:244-258 | Inserting an attempt row appends that attempt to the log of its request and to no other. |
| Postgres.AttemptRoundTrip | src/infrastructure/repositories/postgres/postgres-mappers.ts:201-237 | Every attempt is read back from its row as it was written, and the constraint admits the row. |
| Postgres.AdmittedIff | src/infrastructure/database/migrations/202605290001_create_movie_reservation_schema.ts:184-221 | With SQL's three truth values, the attempts constraint admits the three shapes it spells out and, because an unknown check passes, also rejected and failed rows whose reason is NULL. |
| Postgres.AdmittedReadsBackIff | src/infrastructure/repositories/postgres/postgres-mappers.ts:201-237 | An admitted row is read back if and only if it is confirmed or has a reason, that is, if and only if it has one of the spelt-out shapes. |
| Postgres.ShapeIsWrittenShape | src/infrastructure/database/migrations/202605290001_create_movie_reservation_schema.ts:204-219 | The spelt-out shapes, as opposed to all admitted rows, are exactly the rows that attempts are written as. |
| AdapterAgreement.ServeInMemory | src/infrastructure/repositories/in-memory/in-memory-reservation-request-work.repository.ts:38-275 | Every call on the in-memory work repository, for any item and attempt, gives the answer and the new queue that the port specification prescribes. |
| AdapterAgreement.PgServes | src/infrastructure/repositories/postgres/postgres-reservation-request-work.repository.ts:51-156 | A call as transactions, whatever its item, reservation and attempt, gives an answer and a new state that the same specification prescribes if and only if what it writes fits the declared constraints; otherwise it is refused and changes nothing. The schema is kept either way. |
| AdapterAgreement.ProperCallFits | src/application/movie-reservations/in-process-reservation-request-processor.ts:194-326 | Calls as the processor makes them always fit. |
| AdapterAgreement.SameCallSameAnswer | src/infrastructure/repositories/postgres/postgres-reservation-request-work.repository.ts:51-156 | The specification determines the answer and the next state up to which reservation a rejection names. |
| AdapterAgreement.PostgresAgreesIff | src/infrastructure/repositories/postgres/postgres-reservation-request-work.repository.ts:51-156 | Any serial run of any calls against Postgres and any run of them in memory, from the same queue, give the same answers as long as, and only as long as, the calls fit the constraints; as long as they do requests, counters, reservations and attempts stay the same, up to seat order and the reservation a rejection names. |
| AdapterAgreement.PostgresAgreesWithMemory | src/infrastructure/repositories/postgres/postgres-reservation-request-work.repository.ts:51-156 | Hence for calls as the processor makes them the two adapters agree to the end, and the schema holds throughout. |
| AdapterAgreement.AdaptersAgree | src/infrastructure/repositories/postgres/postgres-reservation-request-work.repository.ts:51-156 | Two adapters that start alike and serve the same serial sequence of calls answer alike to the end, up to the reservation a rejection names. |
| SplitConfirm.FinishIsSafeIff | src/infrastructure/repositories/in-memory/in-memory-reservation-request-work.repository.ts:185-217 | The writes after the await keep seats disjoint if and only if nobody sold one of these seats during the await. |
| SplitConfirm.CheckSurvivesAwait | src/infrastructure/repositories/in-memory/in-memory-reservation-request-work.repository.ts:174-223 | With one item in flight, any interleaving of heartbeats, new requests and reads during the await leaves the claim owned, the reservation id new and the seats free. |
| SplitConfirm.OneInFlightIsSafe | src/infrastructure/repositories/in-memory/in-memory-reservation-request-work.repository.ts:174-223 | So with one item in flight the split confirm commits for a PROCESSING claim its worker still owns, and keeps seats disjoint. |
| SplitConfirm.TwoInFlightAreSafeIff | src/infrastructure/repositories/in-memory/in-memory-reservation-request-work.repository.ts:185-217 | Two confirms that both looked before either wrote stay disjoint if and only if their demands share no seat of a screening. |
| SplitConfirm.TwoInFlightCanSellTwice | src/infrastructure/repositories/in-memory/in-memory-reservation-request-work.repository.ts:185-217 | Two such confirms exist: the in-memory adapter used with two in flight sells a seat twice. |
| InFlight.DisjointIffNoClash | src/infrastructure/repositories/in-memory/in-memory-reservation-request-work.repository.ts:185-217 | For any number of split confirms and any other calls between their checks and their writes: after every move seats are disjoint if and only if no two confirms that were pending at once and overlap have both been written. |
| InFlight.TwoCanBothBeWritten | src/infrastructure/repositories/in-memory/in-memory-reservation-request-work.repository.ts:185-217 | Two confirms that have both passed their checks can both be written, in one run; the seats are then disjoint if and only if they do not overlap. |
| InFlight.ConflictIffWrittenBeside | src/infrastructure/repositories/in-memory/in-memory-reservation-request-work.repository.ts:185-217 | A pending confirm meets a conflict if and only if an overlapping one was written while it was pending. |
| SplitConfirm.TakeoverDuringAwaitIsIgnored | src/infrastructure/repositories/in-memory/in-memory-reservation-request-work.repository.ts:185-217 | A claim taken over during the await is confirmed by its former holder all the same. |
| SplitConfirm.FencedIff | src/infrastructure/repositories/in-memory/in-memory-reservation-request-work.repository.ts:174-223 | With any number of items in flight, the claim is still owned when the writes come if and only if nobody claimed the request, and no other confirm of it was written, during the await. |
| SplitConfirm.FencedWithinLease | src/infrastructure/repositories/in-memory/in-memory-reservation-request-work.repository.ts:283-306 | It is still owned if no claim during the await reads a clock at or past the expiry the lease then has and nobody else is confirming the request. |
| SplitConfirm.FencedBeforeDeadline | src/infrastructure/repositories/in-memory/in-memory-reservation-request-work.repository.ts:354-365 | The same from what can be checked at the start: a deadline the lease reaches, claims that read earlier clocks, and heartbeats that do not shorten the lease below it. |
| SplitConfirm.WritesKeepHistoryIff | src/infrastructure/repositories/in-memory/in-memory-reservation-request-work.repository.ts:193-222 | The unchecked writes, sale or rejection, keep closed requests closed if and only if the request was still open when they came. |
| SplitConfirm.ClosedDuringAwaitIsOverwritten | src/infrastructure/repositories/in-memory/in-memory-reservation-request-work.repository.ts:193-222 | For every takeover after which the new holder rejects or fails the request, the late writes turn the terminal row into CONFIRMED, with both attempts in the log. |
| SplitConfirm.TimedOutDuringAwaitIsOverwritten | src/infrastructure/repositories/in-memory/in-memory-reservation-request-work.repository.ts:90-93 | The same when the claim in between found the lease budget spent and had failed the request. |
| SplitConfirm.ConfirmedDuringAwaitSellsTwice | src/infrastructure/repositories/in-memory/in-memory-reservation-request-work.repository.ts:193-222 | If the new holder confirmed first, one request ends with two reservations of the same seats. |
| SplitRuns.MemRunIsRun | src/infrastructure/repositories/in-memory/in-memory-reservation-request-work.repository.ts:174-223 | Every in-memory run with one pass in flight, confirm cut in two and heartbeats and new requests between any two steps, is a protocol run, and what a pending confirm checked still holds at every point of its await. |
| SplitRuns.MemNeverBlocks | src/infrastructure/repositories/in-memory/in-memory-reservation-request-work.repository.ts:174-223 | Nothing gets stuck in such a run: an idle worker can claim, a passed lookup can go on to the check, a pending confirm can write at any time, and requests and heartbeats are never held up. |
| SplitRuns.WritesAreFenced | src/infrastructure/repositories/in-memory/in-memory-reservation-request-work.repository.ts:185-217 | In such a run the late writes are made for a PROCESSING claim the worker owns, with a new reservation id, and sell exactly when no seat is taken. |
| SplitRuns.OnePassInFlightIsSafe | src/infrastructure/repositories/in-memory/in-memory-reservation-request-work.repository.ts:174-223 | At every step of such a run no seat is sold twice, CONFIRMED means exactly one matching reservation, rejections have their cause, and nothing later touches closed requests or reservations. |
| SplitRuns.ConfirmAcrossAwait | src/infrastructure/repositories/in-memory/in-memory-reservation-request-work.repository.ts:174-223 | The class itself, with given other calls made between its lookup and its writes: it passes or fails on the queue it started with, and its sale or rejection is applied to the queue those very calls left, for a claim still owned; for the reservation the processor builds, the sale is the one of the runs. |
| EdgeCases.ExpiredClaimIsStillGood | src/infrastructure/repositories/in-memory/in-memory-reservation-request-work.repository.ts:283-306 | A concrete expired claim that is renewed and confirmed by its holder. |
| EdgeCases.ClaimComesBackEmpty | src/infrastructure/repositories/in-memory/in-memory-reservation-request-work.repository.ts:90-93 | A concrete queue in which the claim returns nothing although a second request is eligible before and after. |
| EdgeCases.SaveBeyondTheLastSequence | src/infrastructure/repositories/in-memory/in-memory-movie-reservation.store.ts:124-130 | A concrete save that throws for want of a safe sequence and leaves the request stored without metadata. |
| EdgeCases.NullReasonIsAdmitted | src/infrastructure/database/migrations/202605290001_create_movie_reservation_schema.ts:184-221 | A rejected and a failed row without a reason that the constraint admits and the reader cannot read. |
| EdgeCases.StrayAttemptIsServedInMemoryOnly | src/infrastructure/repositories/postgres/postgres-reservation-request-state-store.ts:244-258 | A concrete release whose attempt names a request that does not exist: memory serves it, Postgres refuses it and changes nothing. |
| WorkerService.FakeReservationRequestWorkerService.OnApplicationBootstrap | src/di/movie-reservations/fake-reservation-request-worker.service.ts:57-59 | Arms the first poll unless stopping. |
| WorkerService.FakeReservationRequestWorkerService.StartProcessingOneWorkItem | src/di/movie-reservations/fake-reservation-request-worker.service.ts:99-121 | A poll starts one pass with its own heartbeat timer and no item yet. |
| WorkerService.FakeReservationRequestWorkerService.FinishProcessingOneWorkItem | src/di/movie-reservations/fake-reservation-request-worker.service.ts:88-91 | The end of a pass, normal or not, clears the heartbeat timer and arms the next poll unless stopping. |
| WorkerService.FakeReservationRequestWorkerService.OnHeartbeatInterval | src/di/movie-reservations/fake-reservation-request-worker.service.ts:102-108 | A heartbeat goes out for the item the pass has claimed, and none before it has claimed one; the worker's state stays as it is. |
| WorkerService.FakeReservationRequestWorkerService.Heartbeat | src/di/movie-reservations/fake-reservation-request-worker.service.ts:126-137 | A heartbeat renews the lease if and only if the handle is valid, for claimLeaseMs from now, under the item's own worker and token; otherwise nothing changes. |
| WorkerService.FakeReservationRequestWorkerService.OnHeartbeatReply | src/di/movie-reservations/fake-reservation-request-worker.service.ts:134-136 | A refusal clears the current heartbeat timer, whichever item it was about. |
| WorkerService.FakeReservationRequestWorkerService.OnApplicationShutdown | src/di/movie-reservations/fake-reservation-request-worker.service.ts:64-72 | Shutdown clears both timers for good and leaves the pass in flight. |
| WorkerService.PollsAreSequential | src/di/movie-reservations/fake-reservation-request-worker.service.ts:77-94 | In every run no poll is armed while an item is in flight, heartbeats run only for an item in flight, and neither timer is armed once stopping. |
| WorkerService.AlwaysPollsAgain | src/di/movie-reservations/fake-reservation-request-worker.service.ts:77-94 | Once started and until shut down, in every state of every run a poll is armed or a pass is in flight. |
| WorkerService.PollFollows | src/di/movie-reservations/fake-reservation-request-worker.service.ts:77-94 | After a start or the end of any pass, claimed item or not, the next poll can fire unless the worker was shut down; a pass that has begun has a heartbeat timer, no item yet, and can end. |
| WorkerService.ItemIsTheOneClaimed | src/di/movie-reservations/fake-reservation-request-worker.service.ts:111-117 | During a pass the item that heartbeats are for is the one the pass has claimed, and there is none before it claims one. |
| WorkerService.NothingStartsAfterShutdown | src/di/movie-reservations/fake-reservation-request-worker.service.ts:64-72 | After shutdown no pass starts, however the events continue. |
| WorkerService.TimerRunsIff | src/di/movie-reservations/fake-reservation-request-worker.service.ts:126-137 | The item in flight keeps its heartbeat timer if and only if no shutdown and no refusal, of any heartbeat, has arrived since its pass began. |
| WorkerService.LateReplyStopsNextItem | src/di/movie-reservations/fake-reservation-request-worker.service.ts:134-136 | A concrete run in which the late refusal of an earlier item stops the heartbeats of the next one. |
| Availability.ReadersAgree | src/infrastructure/repositories/postgres/postgres-screening-availability.reader.ts:19-48 | On the same seats and reservations, in whatever order the map and the unordered query yield them, the two readers return the same entries, each once, or both nothing. |
| Availability.ReadersAgreeInOrder | src/infrastructure/repositories/postgres/postgres-screening-availability.reader.ts:19-48 | If both yield the seats in one order, they return the same list. |
| Availability.AtMostOneMatch | src/infrastructure/database/migrations/202605290001_create_movie_reservation_schema.ts:146-171 | Because (screening, seat) is unique the left join yields exactly one row per seat. |
| Availability.ReadingIsExact | src/infrastructure/repositories/in-memory/in-memory-screening-availability.reader.ts:10-26 | A reading lists every seat of the auditorium once, unavailable exactly when a reservation of the screening holds it; there is none exactly when the provider does not own the screening. |
| Availability.NoConflictIffAvailable | src/infrastructure/repositories/in-memory/in-memory-screening-availability.reader.ts:10-26 | For a valid demand the conflict lookup is empty if and only if every requested seat reads as available. |
| Availability.OccupancyIsConserved | src/infrastructure/repositories/in-memory/in-memory-screening-availability.reader.ts:10-26 | In every reachable state the reader marks as many seats unavailable as the reservations of the screening hold together, never more than it lists, and it lists all seats of the auditorium. |
| Availability.OccupancyNeverDecreases | src/infrastructure/repositories/in-memory/in-memory-screening-availability.reader.ts:10-26 | An entry that reads as unavailable is in every later reading, whatever the order of the seats. |
| Availability.DrainShowsInReading | src/infrastructure/repositories/in-memory/in-memory-screening-availability.reader.ts:10-26 | After a drain the reader marks unavailable exactly the seats sold before it and those the greedy plan takes. |
| SeatLookup.FindSeatsByScreeningIds | src/infrastructure/repositories/postgres/postgres-movie-reservation.repository.ts:105-140 | The batched lookup has an entry for exactly the requested screenings the provider owns, and each entry, or the empty default, is what the single lookup returns, in the same order. |
| SeatLookup.GroupByAuditorium | src/infrastructure/repositories/postgres/postgres-movie-reservation.repository.ts:127-133 | The grouping loop gives every auditorium its seats in query order. |
| SeatLookup.SingleLookupIsUnique | src/infrastructure/repositories/postgres/postgres-movie-reservation.repository.ts:87-103 | Seat positions being unique, the single lookup has one possible result. |

## Left out

- Processor.ReservationRequestProcessor.ProcessNextPendingRequest: heartbeats that fire during a call are not interleaved here; the protocol's `Beat` action interleaves them anywhere.
- InMemoryStore.Store.Load: providers, movies, auditoriums, screenings and seats are given as one catalog instead of being loaded by loops.
- InMemoryWorkRepository.WorkRepository.FindNextWorkItem: scans in an arbitrary order instead of a JavaScript Map's insertion order, so the result is proved for every order.
- InMemoryWorkRepository.WorkRepository.Close: gathers the status write, counter, claim clearing and attempt that the source repeats in each operation.
- Leases.PunctualHolds: each heartbeat is one atomic step on one non-decreasing clock; network delay between a tick and its effect is not modelled.
- SplitConfirm.FencedIff: several confirms in flight are steps on the queue value, not coroutines of the class; `ConfirmAcrossAwait` interrupts the class with heartbeats and saves only.
- SplitRuns.ConfirmAcrossAwait: followed until one of the interrupting saves exhausts the sequence; after that the source's claim scan throws for the request without metadata, which is not part of this model.
- PostgresViews.SaveTxView: does not place the request behind all others, because identity values are given before transactions commit; the protocol asks only that sequences differ.
- Attempt rows that cannot be read back stand for no attempt; that the source's reader throws on them is not part of this model.
- The five nullable claim columns are one optional claim; partly filled claims, which nothing writes, are not represented.
- Seat lists are sets in the queue value; their order matters only in the read side, where it is kept.
- Identifier, user-id and UUID validation: identifiers are abstract values with equality.
- Observability, tracing and logging, except that such calls may throw inside the processor; a throw of the service's own recording call after a request was saved is not modelled.
- The SHA-256 score of the failure policy: the policy is an arbitrary stable function of the request.
- ISO timestamps, `requested_at`, `processed_at` and `updated_at`: no decision depends on them.
- SQL text, isolation levels, indexes and migration mechanics: only the declared constraints are modelled.
- Movies, providers, auditoriums and the plain finders: one query each.
- GraphQL, HTTP, dependency injection, authentication, authorization, audit publishing, configuration parsing and infrastructure code: no part of the queue's behaviour.
