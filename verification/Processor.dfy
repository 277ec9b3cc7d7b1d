/** The application processor: one claimed item driven through the repository. Every dependency
    call may throw before it takes effect; `faults` says which ones do. */
module Processor {
  import opened Domain
  import opened Queue
  import opened Protocol
  import opened InMemoryStore
  import opened InMemoryWorkRepository

  datatype Options = Options(
    workerId: WorkerId, claimLeaseMs: int, maxLeaseTimeouts: nat, maxTransientFailures: nat)

  /** What the surroundings supply during one call: the token, the clock readings in the order they
      are taken, the next reservation id and the failure policy. */
  datatype Surroundings = Surroundings(
    claimToken: ClaimToken,
    startedAt: int,
    rejectedAt: int,
    confirmedAt: int,
    completedAt: int,
    failedAt: int,
    reservationId: ReservationId,
    policy: RequestId -> bool)

  /** The calls that may throw. */
  datatype Site =
    | ClaimCall | RecordIdle | RecordClaimed | OnClaimed | LookupCall
    | RejectClock | RejectCall | PolicyCall | GenerateId | ConfirmClock | ConfirmCall
    | RecordTerminal | FailureClock | SettleFailureCall | RecordException | RecordFailure

  datatype Thrown = Thrown

  datatype ProcessingResult =
    | NoPendingRequest
    | ConfirmedOutcome(reservationRequest: ReservationRequest, attempt: Attempt, reservation: Reservation)
    | RejectedOutcome(reservationRequest: ReservationRequest, attempt: Attempt)
    | RetryableFailure(reservationRequest: ReservationRequest, attempt: Attempt, attemptsRemaining: int)
    | FailedOutcome(reservationRequest: ReservationRequest, attempt: Attempt)

  /** The one thing a call did to the claimed request. */
  datatype Verdict =
    | Kept
    | Sold(rid: ReservationId, confirmedAt: int, attempt: Attempt)
    | Refused(attempt: Attempt)
    | Erred(attempt: Attempt)

  ghost predicate ClosesWith(ticket: Ticket, startedAt: int, attempt: Attempt, outcome: Outcome) {
    attempt == Attempt(ticket.id, ticket.sequence, startedAt, attempt.completedAt, outcome)
  }

  /** `after` is `before` with the verdict applied to the request of an owned ticket. */
  ghost predicate Effect(maxTransientFailures: nat, startedAt: int, before: State, ticket: Ticket, verdict: Verdict,
                         after: State)
  {
    match verdict
    case Kept => after == before
    case Sold(rid, confirmedAt, attempt) =>
      && Owns(before, ticket) && rid !in before.bookings && !HasConflict(before, ticket.demand)
      && ClosesWith(ticket, startedAt, attempt, Confirmed(rid))
      && after == Sell(before, ticket, rid, confirmedAt, attempt)
    case Refused(attempt) =>
      && Owns(before, ticket) && attempt.outcome.Rejected?
      && var c := attempt.outcome.conflictingReservationId;
      && c in before.bookings && Conflicts(before.bookings[c], ticket.demand)
      && ClosesWith(ticket, startedAt, attempt, Rejected(c))
      && after == Settle(before, ticket.id, REJECTED, false, attempt)
    case Erred(attempt) =>
      && Owns(before, ticket) && ClosesWith(ticket, startedAt, attempt, UnexpectedError)
      && after == Settle(before, ticket.id,
                         if ticket.transientFailures + 1 < maxTransientFailures then REQUESTED else FAILED,
                         true, attempt)
  }

  /** What can become of an owned request. */
  datatype Fate = ToKeep | ToReject | ToErr | ToSell

  /** What the try block makes of an owned request, given which calls throw. */
  ghost function TryFate(before: State, ticket: Ticket, seatIds: seq<SeatId>, env: Surroundings,
                         faults: set<Site>): Fate
  {
    if LookupCall in faults then ToErr
    else if HasConflict(before, ticket.demand) then
      if RejectClock !in faults && RejectCall !in faults then ToReject else ToErr
    else if env.policy(ticket.id) || seatIds == [] || !NoDuplicates(seatIds) || env.reservationId in before.bookings
            || PolicyCall in faults || GenerateId in faults || ConfirmClock in faults || ConfirmCall in faults
         then ToErr
    else ToSell
  }

  /** What becomes of an owned request: it stays claimed only if its announcement threw, or if the
      try block failed and the writes of the catch block did too. */
  ghost function FateOf(before: State, ticket: Ticket, seatIds: seq<SeatId>, env: Surroundings, faults: set<Site>): Fate
  {
    if RecordClaimed in faults || OnClaimed in faults then ToKeep
    else
      var fate := TryFate(before, ticket, seatIds, env, faults);
      if fate.ToErr? && (FailureClock in faults || SettleFailureCall in faults) then ToKeep else fate
  }

  /** What the throws decide: an item is sold, or rejected, only if no call on that path threw; it stays
      claimed if its announcement threw, and otherwise only if the catch block's own calls did; and the
      recording calls after a write decide nothing. */
  lemma ThrowsDecide(before: State, ticket: Ticket, seatIds: seq<SeatId>, env: Surroundings, faults: set<Site>)
    ensures var fate := FateOf(before, ticket, seatIds, env, faults);
            var announced := RecordClaimed !in faults && OnClaimed !in faults;
            var confirms := PolicyCall !in faults && GenerateId !in faults
                            && ConfirmClock !in faults && ConfirmCall !in faults;
            var rejects := RejectClock !in faults && RejectCall !in faults;
            var recovers := FailureClock !in faults && SettleFailureCall !in faults;
            && (fate.ToSell? ==> announced && LookupCall !in faults && confirms && !HasConflict(before, ticket.demand))
            && (fate.ToReject? ==> announced && LookupCall !in faults && rejects && HasConflict(before, ticket.demand))
            && (fate.ToErr? ==> announced && recovers)
            && (fate.ToKeep? ==> !announced || !recovers)
            && (announced && LookupCall !in faults && rejects && HasConflict(before, ticket.demand) ==> fate.ToReject?)
            && (&& announced && LookupCall !in faults && confirms && !HasConflict(before, ticket.demand)
                && !env.policy(ticket.id) && seatIds != [] && NoDuplicates(seatIds)
                && env.reservationId !in before.bookings
                ==> fate.ToSell?)
    ensures FateOf(before, ticket, seatIds, env, faults)
         == FateOf(before, ticket, seatIds, env, faults - {RecordIdle, RecordTerminal, RecordException, RecordFailure})
  {
  }

  ghost predicate Fulfils(verdict: Verdict, fate: Fate, env: Surroundings) {
    match fate
    case ToKeep => verdict.Kept?
    case ToReject => verdict.Refused?
    case ToErr => verdict.Erred?
    case ToSell => verdict.Sold? && verdict.rid == env.reservationId && verdict.confirmedAt == env.confirmedAt
  }

  /** The result a verdict is reported as; a call fails when nothing was persisted, or when the
      recording calls after it throw. */
  ghost predicate Reports(r: Result<ProcessingResult, Thrown>, verdict: Verdict, faults: set<Site>,
                          maxTransientFailures: nat, ticket: Ticket)
  {
    match verdict
    case Kept => r.Err?
    case Sold(rid, confirmedAt, attempt) =>
      && (r.Ok? <==> RecordTerminal !in faults)
      && (r.Ok? ==> r.value.ConfirmedOutcome? && r.value.attempt == attempt && r.value.reservation.id == rid
                    && BookingOf(r.value.reservation) == BookingFor(ticket, confirmedAt))
    case Refused(attempt) =>
      && (r.Ok? <==> RecordTerminal !in faults)
      && (r.Ok? ==> r.value.RejectedOutcome? && r.value.attempt == attempt)
    case Erred(attempt) =>
      var used := ticket.transientFailures + 1;
      && (r.Ok? <==> RecordException !in faults && RecordFailure !in faults)
      && (r.Ok? ==>
            if used < maxTransientFailures then
              && r.value.RetryableFailure? && r.value.attempt == attempt
              && r.value.attemptsRemaining == maxTransientFailures - used
            else r.value.FailedOutcome? && r.value.attempt == attempt)
  }

  /** The claim inside a call returned an item. */
  ghost predicate Gets(input: ClaimInput, before: State, head: Option<RequestId>) {
    head.Some? && head.value in before.rows && !LeaseBudgetSpent(before.rows[head.value], input)
  }

  /** The whole effect of one call: nothing eligible, the head failed for its lease budget, or the
      head claimed and its verdict applied. */
  ghost predicate CallEffect(input: ClaimInput, before: State, head: Option<RequestId>, verdict: Verdict, after: State)
  {
    if head.None? then NothingEligible(before, input, {}) && after == before
    else
      && IsHead(before, head.value, input, {})
      && if LeaseBudgetSpent(before.rows[head.value], input) then after == ClaimHead(before, head.value, input)
         else Effect(input.maxTransientFailures, input.claimedAt, ClaimHead(before, head.value, input),
                     TicketFor(head.value, before.rows[head.value], input), verdict, after)
  }

  /** The reservation a call offers for its item. */
  function ReservationOf(item: ClaimedReservationRequest, env: Surroundings): Reservation {
    var request := item.reservationRequest;
    Reservation(env.reservationId, request.movieProviderId, request.id, request.screeningId, request.seatIds,
                request.requestedByUserId, env.confirmedAt)
  }

  /** One transient failure more. */
  ghost predicate CountsFailure(metadata: map<RequestId, Metadata>, id: RequestId, metadata': map<RequestId, Metadata>)
  {
    id in metadata && id in metadata' && metadata'[id].transientFailureCount == metadata[id].transientFailureCount + 1
  }

  lemma IssuedFacts(requests: map<RequestId, ReservationRequest>, metadata: map<RequestId, Metadata>, id: RequestId,
                    input: ClaimInput, item: ClaimedReservationRequest,
                    requests': map<RequestId, ReservationRequest>, metadata': map<RequestId, Metadata>)
    requires Issued(requests, metadata, id, input, item, requests', metadata')
    ensures id in requests && id in requests' && id in metadata'
    ensures requests'[id].status == PROCESSING && item.reservationRequest == requests[id].(status := PROCESSING)
    ensures metadata'[id].claim
         == Some(Claim(input.workerId, input.claimToken, input.claimedAt, input.claimExpiresAt, input.claimedAt))
    ensures item.transientFailureCount == metadata'[id].transientFailureCount
  {
  }

  lemma NothingDone(maxTransientFailures: nat, startedAt: int, q: State, ticket: Ticket)
    ensures Effect(maxTransientFailures, startedAt, q, ticket, Kept, q)
  {
  }

  /** The factory makes the reservation to offer, for a non-empty list of distinct seats only. */
  lemma OfferedIsCreated(item: ClaimedReservationRequest, env: Surroundings)
    ensures var request := item.reservationRequest;
            var created := CreateReservation(env.reservationId, request.movieProviderId, request.id,
                                             request.screeningId,
                                             request.seatIds, request.requestedByUserId, env.confirmedAt);
            && (created.Ok? <==> request.seatIds != [] && NoDuplicates(request.seatIds))
            && (created.Ok? ==> created.value == ReservationOf(item, env))
    ensures ReservationOf(item, env).id == env.reservationId
    ensures BookingOf(ReservationOf(item, env)) == BookingFor(TicketOf(item), env.confirmedAt)
    ensures TicketOf(item).id == item.reservationRequest.id
    ensures BookingOf(ReservationOf(item, env)).demand == TicketOf(item).demand
  {
    SizeTestFindsDuplicates(item.reservationRequest.seatIds);
  }

  /** What the repository's confirm did, as a verdict. */
  lemma ConfirmEffect(maxTransientFailures: nat, before: State, item: ClaimedReservationRequest, env: Surroundings,
                      attempt: Attempt, result: ConfirmResult, after: State)
    requires Owns(before, TicketOf(item)) && env.reservationId !in before.bookings
    requires attempt == Attempt(item.reservationRequest.id, item.sequence, env.startedAt, env.completedAt,
                                Confirmed(env.reservationId))
    requires result.ConfirmedResult? ==>
               && !HasConflict(before, BookingOf(ReservationOf(item, env)).demand)
               && after == Book(Settle(before, item.reservationRequest.id, CONFIRMED, false, attempt),
                                env.reservationId, BookingOf(ReservationOf(item, env)))
    requires result.RejectedResult? ==>
               && result.attempt.outcome.Rejected?
               && result.attempt == Attempt(item.reservationRequest.id, item.sequence, attempt.startedAt,
                                            attempt.completedAt, result.attempt.outcome)
               && var c := result.attempt.outcome.conflictingReservationId;
               && c in before.bookings && Conflicts(before.bookings[c], BookingOf(ReservationOf(item, env)).demand)
               && after == Settle(before, item.reservationRequest.id, REJECTED, false, result.attempt)
    ensures Effect(maxTransientFailures, env.startedAt, before, TicketOf(item),
                   if result.ConfirmedResult? then Sold(env.reservationId, env.confirmedAt, attempt)
                   else Refused(result.attempt), after)
  {
  }

  lemma IssuedReservation(item: ClaimedReservationRequest, env: Surroundings, request: ReservationRequest)
    requires item.reservationRequest == request.(status := PROCESSING)
    ensures ReservationOf(item, env)
         == Reservation(env.reservationId, request.movieProviderId, request.id, request.screeningId, request.seatIds,
                        request.requestedByUserId, env.confirmedAt)
    ensures TicketOf(item).id == request.id && TicketOf(item).transientFailures == item.transientFailureCount
  {
  }

  lemma SettledCounts(requests: map<RequestId, ReservationRequest>, metadata: map<RequestId, Metadata>, id: RequestId,
                      status: Status, requests': map<RequestId, ReservationRequest>,
                      metadata': map<RequestId, Metadata>)
    requires Settled(requests, metadata, id, status, true, requests', metadata')
    ensures CountsFailure(metadata, id, metadata') && id in requests'
  {
  }

  lemma StatusesChain(a: map<RequestId, ReservationRequest>, b: map<RequestId, ReservationRequest>,
                      c: map<RequestId, ReservationRequest>)
    requires OnlyStatusesChange(a, b) && OnlyStatusesChange(b, c)
    ensures OnlyStatusesChange(a, c)
  {
  }

  lemma EffectAttempt(maxTransientFailures: nat, startedAt: int, before: State, ticket: Ticket, verdict: Verdict,
                      after: State)
    requires Effect(maxTransientFailures, startedAt, before, ticket, verdict, after)
    ensures !verdict.Kept? ==> verdict.attempt.requestId == ticket.id && verdict.attempt.startedAt == startedAt
  {
  }

  /** The attempts remaining are those the stored counter leaves. */
  lemma RemainingAttempts(r: Result<ProcessingResult, Thrown>, verdict: Verdict, faults: set<Site>,
                          maxTransientFailures: nat, ticket: Ticket, metadata: map<RequestId, Metadata>,
                          metadata': map<RequestId, Metadata>)
    requires Reports(r, verdict, faults, maxTransientFailures, ticket)
    requires ticket.id in metadata && metadata[ticket.id].transientFailureCount == ticket.transientFailures
    requires verdict.Erred? ==> CountsFailure(metadata, ticket.id, metadata')
    ensures r.Ok? && r.value.RetryableFailure? ==>
              && ticket.id in metadata'
              && r.value.attemptsRemaining == maxTransientFailures - metadata'[ticket.id].transientFailureCount
  {
  }

  lemma ClaimedIsOwned(q: State, id: RequestId, input: ClaimInput)
    requires id in q.rows && !LeaseBudgetSpent(q.rows[id], input)
    ensures Owns(ClaimHead(q, id, input), TicketFor(id, q.rows[id], input))
  {
  }

  class ReservationRequestProcessor {
    const repository: WorkRepository
    const options: Options

    constructor (repository: WorkRepository, options: Options)
      ensures this.repository == repository && this.options == options
    {
      this.repository := repository;
      this.options := options;
    }

    function ClaimInputFor(env: Surroundings): ClaimInput {
      ClaimInput(options.workerId, env.claimToken, env.startedAt, env.startedAt + options.claimLeaseMs,
                 options.maxLeaseTimeouts, options.maxTransientFailures)
    }

    /** Claims the next item and processes it. */
    method ProcessNextPendingRequest(env: Surroundings, faults: set<Site>)
      returns (r: Result<ProcessingResult, Thrown>, ghost head: Option<RequestId>, ghost verdict: Verdict)
      requires repository.store.Valid()
      modifies repository.store
      ensures repository.store.Valid() && unchanged(repository.store`nextSequence)
      ensures OnlyStatusesChange(old(repository.store.requestsById), repository.store.requestsById)
      ensures ClaimCall in faults ==>
                r.Err? && repository.store.View() == old(repository.store.View()) && unchanged(repository.store)
      ensures ClaimCall !in faults ==>
                && CallEffect(ClaimInputFor(env), old(repository.store.View()), head, verdict, repository.store.View())
                && (Gets(ClaimInputFor(env), old(repository.store.View()), head) ==>
                      Reports(r, verdict, faults, options.maxTransientFailures,
                              TicketFor(head.value, old(repository.store.View()).rows[head.value], ClaimInputFor(env))))
                && (!Gets(ClaimInputFor(env), old(repository.store.View()), head) ==>
                      r == if RecordIdle in faults then Err(Thrown) else Ok(NoPendingRequest))
      ensures ClaimCall !in faults && Gets(ClaimInputFor(env), old(repository.store.View()), head) ==>
                && head.value in old(repository.store.requestsById)
                && var before, input := old(repository.store.View()), ClaimInputFor(env);
                Fulfils(verdict,
                        FateOf(ClaimHead(before, head.value, input),
                               TicketFor(head.value, before.rows[head.value], input),
                               old(repository.store.requestsById)[head.value].seatIds, env, faults), env)
      ensures Gets(ClaimInputFor(env), old(repository.store.View()), head) && verdict.Kept? && ClaimCall !in faults ==>
                && head.value in repository.store.requestsById && head.value in repository.store.metadataById
                && repository.store.requestsById[head.value].status == PROCESSING
                && repository.store.metadataById[head.value].claim
                   == Some(Claim(options.workerId, env.claimToken, env.startedAt, env.startedAt + options.claimLeaseMs,
                                 env.startedAt))
      ensures verdict.Sold? || verdict.Refused? ==> (r.Ok? <==> RecordTerminal !in faults)
      ensures verdict.Erred? ==> (r.Ok? <==> RecordException !in faults && RecordFailure !in faults)
      ensures verdict.Erred? ==> verdict.attempt.completedAt == env.failedAt
      ensures verdict.Refused? ==> verdict.attempt.completedAt == env.rejectedAt
      ensures verdict.Sold? ==> verdict.attempt.completedAt == env.completedAt
      ensures !verdict.Kept? ==>
                && ClaimCall !in faults && head.Some? && head.value in old(repository.store.requestsById)
                && verdict.attempt.requestId == head.value && verdict.attempt.startedAt == env.startedAt
      ensures !verdict.Sold? ==> unchanged(repository.store`reservationsById)
      ensures verdict.Sold? ==>
                var request := old(repository.store.requestsById)[head.value];
                repository.store.reservationsById == old(repository.store.reservationsById)[
                  env.reservationId := Reservation(
                    env.reservationId, request.movieProviderId, request.id, request.screeningId, request.seatIds,
                    request.requestedByUserId, env.confirmedAt)]
      ensures r.Ok? && !r.value.NoPendingRequest? ==>
                && head.Some? && head.value in repository.store.requestsById
                && r.value.reservationRequest == repository.store.requestsById[head.value]
                && (r.value.RetryableFailure? ==>
                      && head.value in repository.store.metadataById
                      && r.value.attemptsRemaining
                         == options.maxTransientFailures
                            - repository.store.metadataById[head.value].transientFailureCount)
    {
      hide Effect, FateOf, Fulfils, Reports, NothingEligible, OnlyStatusesChange, IsHead, ClaimHead, TicketFor,
        LeaseBudgetSpent, CountsFailure, Owns, Numbered, BookingsOf, RowOf, DemandOf, Append, ReservationOf, TimedOut;
      ghost var input, before, requests, metadata, next :=
        ClaimInputFor(env), repository.store.View(), repository.store.requestsById, repository.store.metadataById,
        repository.store.nextSequence;
      if ClaimCall in faults {
        StatusesUnchanged(requests);
        return Err(Thrown), None, Kept;
      }
      var item;
      item, head := repository.ClaimNextPendingReservationRequest(ClaimInputFor(env));
      if item.None? {
        r := if RecordIdle in faults then Err(Thrown) else Ok(NoPendingRequest);
        return r, head, Kept;
      }
      ghost var claimed, claimedMetadata := repository.store.requestsById, repository.store.metadataById;
      IssuedFacts(requests, metadata, head.value, input, item.value, claimed, claimedMetadata);
      ClaimedIsOwned(before, head.value, input);
      RequestIsKeyed(requests, metadata, next, head.value);
      hide Issued;
      IssuedReservation(item.value, env, requests[head.value]);
      r, verdict := ProcessClaimedWorkItem(item.value, env, faults);
      StatusesChain(requests, claimed, repository.store.requestsById);
      EffectAttempt(options.maxTransientFailures, env.startedAt, ClaimHead(before, head.value, input),
                    TicketOf(item.value), verdict, repository.store.View());
      RemainingAttempts(r, verdict, faults, options.maxTransientFailures, TicketOf(item.value), claimedMetadata,
                        repository.store.metadataById);
    }

    /** One claimed item: at most one attempt is recorded, a persisted CONFIRMED or REJECTED is never
        undone, and the item stays claimed only if a call outside the try block, or the catch
        block's own writes, threw. */
    method ProcessClaimedWorkItem(item: ClaimedReservationRequest, env: Surroundings, faults: set<Site>)
      returns (r: Result<ProcessingResult, Thrown>, ghost verdict: Verdict)
      requires repository.store.Valid()
      modifies repository.store
      ensures repository.store.Valid() && unchanged(repository.store`nextSequence)
      ensures OnlyStatusesChange(old(repository.store.requestsById), repository.store.requestsById)
      ensures Effect(options.maxTransientFailures, env.startedAt, old(repository.store.View()), TicketOf(item), verdict,
                     repository.store.View())
      ensures verdict.Kept? ==> unchanged(repository.store)
      ensures verdict.Sold? || verdict.Refused? ==> (r.Ok? <==> RecordTerminal !in faults)
      ensures verdict.Erred? ==> (r.Ok? <==> RecordException !in faults && RecordFailure !in faults)
      ensures verdict.Kept? ==> r.Err?
      ensures verdict.Erred? ==> verdict.attempt.completedAt == env.failedAt
      ensures verdict.Erred? ==> CountsFailure(old(repository.store.metadataById), item.reservationRequest.id,
                                               repository.store.metadataById)
      ensures verdict.Refused? ==> verdict.attempt.completedAt == env.rejectedAt
      ensures verdict.Sold? ==> verdict.attempt.completedAt == env.completedAt
      ensures r.Ok? ==>
                && !r.value.NoPendingRequest? && item.reservationRequest.id in repository.store.requestsById
                && r.value.reservationRequest == repository.store.requestsById[item.reservationRequest.id]
      ensures repository.store.reservationsById
           == if verdict.Sold?
              then old(repository.store.reservationsById)[env.reservationId := ReservationOf(item, env)]
              else old(repository.store.reservationsById)
      ensures r.Ok? && verdict.Sold? ==> r.value.ConfirmedOutcome? && r.value.reservation == ReservationOf(item, env)
      ensures Reports(r, verdict, faults, options.maxTransientFailures, TicketOf(item))
      ensures Owns(old(repository.store.View()), TicketOf(item)) ==>
                Fulfils(verdict, FateOf(old(repository.store.View()), TicketOf(item),
                                        item.reservationRequest.seatIds, env, faults), env)
    {
      verdict := Kept;
      if RecordClaimed in faults || OnClaimed in faults {
        return Err(Thrown), Kept;
      }
      var terminalStatePersisted;
      r, terminalStatePersisted, verdict := Attempting(item, env, faults);
      if r.Err? && !terminalStatePersisted {
        r, verdict := HandleUnexpectedFailure(item, env, faults);
        if r.Ok? && (RecordException in faults || RecordFailure in faults) {
          r := Err(Thrown);
        }
      }
    }

    /** The try block; `terminalStatePersisted` tells the catch block to keep its hands off. */
    method Attempting(item: ClaimedReservationRequest, env: Surroundings, faults: set<Site>)
      returns (r: Result<ProcessingResult, Thrown>, terminalStatePersisted: bool, ghost verdict: Verdict)
      requires repository.store.Valid()
      modifies repository.store
      ensures repository.store.Valid() && unchanged(repository.store`nextSequence)
      ensures OnlyStatusesChange(old(repository.store.requestsById), repository.store.requestsById)
      ensures Effect(options.maxTransientFailures, env.startedAt, old(repository.store.View()), TicketOf(item), verdict,
                     repository.store.View())
      ensures verdict.Kept? ==> unchanged(repository.store)
      ensures verdict.Refused? ==> verdict.attempt.completedAt == env.rejectedAt
      ensures verdict.Sold? ==> verdict.attempt.completedAt == env.completedAt
      ensures r.Ok? ==>
                && !r.value.NoPendingRequest? && item.reservationRequest.id in repository.store.requestsById
                && r.value.reservationRequest == repository.store.requestsById[item.reservationRequest.id]
      ensures repository.store.reservationsById
           == if verdict.Sold?
              then old(repository.store.reservationsById)[env.reservationId := ReservationOf(item, env)]
              else old(repository.store.reservationsById)
      ensures r.Ok? && verdict.Sold? ==> r.value.ConfirmedOutcome? && r.value.reservation == ReservationOf(item, env)
      ensures verdict.Kept? || verdict.Sold? || verdict.Refused?
      ensures terminalStatePersisted <==> !verdict.Kept?
      ensures Reports(r, verdict, faults, options.maxTransientFailures, TicketOf(item))
      ensures Owns(old(repository.store.View()), TicketOf(item)) ==>
                var fate := TryFate(old(repository.store.View()), TicketOf(item),
                                    item.reservationRequest.seatIds, env, faults);
                if verdict.Kept? then fate.ToErr? else Fulfils(verdict, fate, env)
    {
      verdict, terminalStatePersisted := Kept, false;
      if LookupCall in faults {
        return Err(Thrown), false, Kept;
      }
      var request := item.reservationRequest;
      var conflict := repository.FindConflictingConfirmedReservation(request.screeningId, request.seatIds);
      LookupFindsConflicts(repository.store.reservationsById, conflict, request.screeningId, request.seatIds,
                           DemandOf(request));
      if conflict.Some? {
        if RejectClock in faults || RejectCall in faults {
          return Err(Thrown), false, Kept;
        }
        var attempt := Attempt(request.id, item.sequence, env.startedAt, env.rejectedAt, Rejected(conflict.value.id));
        var rejected := repository.RejectClaimedReservationRequest(item, attempt);
        if rejected.Err? {
          return Err(Thrown), false, Kept;
        }
        verdict, terminalStatePersisted := Refused(attempt), true;
        r := if RecordTerminal in faults then Err(Thrown) else Ok(RejectedOutcome(rejected.value, attempt));
        return;
      }
      if PolicyCall in faults || env.policy(request.id) {
        return Err(Thrown), false, Kept;
      }
      r, terminalStatePersisted, verdict := ConfirmClaimedWorkItem(item, env, faults);
    }

    /** Confirms the item, or passes on that the repository rejected it for a seat sold meanwhile. */
    method ConfirmClaimedWorkItem(item: ClaimedReservationRequest, env: Surroundings, faults: set<Site>)
      returns (r: Result<ProcessingResult, Thrown>, terminalStatePersisted: bool, ghost verdict: Verdict)
      requires repository.store.Valid()
      modifies repository.store
      ensures repository.store.Valid() && unchanged(repository.store`nextSequence)
      ensures OnlyStatusesChange(old(repository.store.requestsById), repository.store.requestsById)
      ensures Effect(options.maxTransientFailures, env.startedAt, old(repository.store.View()), TicketOf(item), verdict,
                     repository.store.View())
      ensures verdict.Kept? ==> unchanged(repository.store)
      ensures verdict.Refused? || verdict.Sold? ==> verdict.attempt.completedAt == env.completedAt
      ensures r.Ok? ==>
                && !r.value.NoPendingRequest? && item.reservationRequest.id in repository.store.requestsById
                && r.value.reservationRequest == repository.store.requestsById[item.reservationRequest.id]
      ensures repository.store.reservationsById
           == if verdict.Sold?
              then old(repository.store.reservationsById)[env.reservationId := ReservationOf(item, env)]
              else old(repository.store.reservationsById)
      ensures r.Ok? && verdict.Sold? ==> r.value.ConfirmedOutcome? && r.value.reservation == ReservationOf(item, env)
      ensures verdict.Kept? || verdict.Refused?
           || (verdict.Sold? && verdict.rid == env.reservationId && verdict.confirmedAt == env.confirmedAt)
      ensures terminalStatePersisted <==> !verdict.Kept?
      ensures Reports(r, verdict, faults, options.maxTransientFailures, TicketOf(item))
      ensures Owns(old(repository.store.View()), TicketOf(item)) ==>
                var before, seats := old(repository.store.View()), item.reservationRequest.seatIds;
                && (verdict.Kept? <==>
                      || seats == [] || !NoDuplicates(seats) || env.reservationId in before.bookings
                      || GenerateId in faults || ConfirmClock in faults || ConfirmCall in faults)
                && (!verdict.Kept? ==> (verdict.Sold? <==> !HasConflict(before, TicketOf(item).demand)))
    {
      ghost var before := repository.store.View();
      StatusesUnchanged(repository.store.requestsById);
      NothingDone(options.maxTransientFailures, env.startedAt, before, TicketOf(item));
      OfferedIsCreated(item, env);
      hide Settled, OnlyStatusesChange, Effect, HasConflict, Conflicts, BookingOf, ReservationOf, TicketOf,
        CreateReservation, NoDuplicates;
      verdict, terminalStatePersisted := Kept, false;
      if GenerateId in faults || ConfirmClock in faults {
        return Err(Thrown), false, Kept;
      }
      var request := item.reservationRequest;
      var created := CreateReservation(env.reservationId, request.movieProviderId, request.id, request.screeningId,
                                       request.seatIds, request.requestedByUserId, env.confirmedAt);
      if created.Err? || ConfirmCall in faults {
        return Err(Thrown), false, Kept;
      }
      var reservation := created.value;
      var attempt := Attempt(request.id, item.sequence, env.startedAt, env.completedAt, Confirmed(reservation.id));
      var confirmed := repository.ConfirmClaimedReservationRequest(item, reservation, attempt);
      if confirmed.Err? {
        return Err(Thrown), false, Kept;
      }
      ConfirmEffect(options.maxTransientFailures, before, item, env, attempt, confirmed.value, repository.store.View());
      if confirmed.value.RejectedResult? {
        verdict, terminalStatePersisted := Refused(confirmed.value.attempt), true;
        r := if RecordTerminal in faults then Err(Thrown)
             else Ok(RejectedOutcome(confirmed.value.rejected, confirmed.value.attempt));
        return;
      }
      verdict, terminalStatePersisted := Sold(reservation.id, env.confirmedAt, attempt), true;
      r := if RecordTerminal in faults then Err(Thrown)
           else Ok(ConfirmedOutcome(confirmed.value.confirmed, attempt, reservation));
    }

    /** The catch block's writes: release while attempts remain, fail otherwise. */
    method HandleUnexpectedFailure(item: ClaimedReservationRequest, env: Surroundings, faults: set<Site>)
      returns (r: Result<ProcessingResult, Thrown>, ghost verdict: Verdict)
      requires repository.store.Valid()
      modifies repository.store
      ensures repository.store.Valid() && unchanged(repository.store`nextSequence)
      ensures OnlyStatusesChange(old(repository.store.requestsById), repository.store.requestsById)
      ensures Effect(options.maxTransientFailures, env.startedAt, old(repository.store.View()), TicketOf(item), verdict,
                     repository.store.View())
      ensures verdict.Kept? ==> unchanged(repository.store)
      ensures verdict.Erred? ==> verdict.attempt.completedAt == env.failedAt
      ensures verdict.Erred? ==> CountsFailure(old(repository.store.metadataById), item.reservationRequest.id,
                                               repository.store.metadataById)
      ensures r.Ok? ==>
                && !r.value.NoPendingRequest? && item.reservationRequest.id in repository.store.requestsById
                && r.value.reservationRequest == repository.store.requestsById[item.reservationRequest.id]
      ensures unchanged(repository.store`reservationsById)
      ensures r.Ok? <==> verdict.Erred?
      ensures verdict.Erred? || verdict.Kept?
      ensures verdict.Erred? <==>
              && FailureClock !in faults && SettleFailureCall !in faults
              && Owns(old(repository.store.View()), TicketOf(item))
      ensures Reports(r, verdict, faults - {RecordException, RecordFailure}, options.maxTransientFailures,
                      TicketOf(item))
    {
      hide OnlyStatusesChange, Owns, Settle, DemandOf, Settled, CountsFailure, RowsOf, BookingsOf, Numbered, Append;
      ghost var requests, metadata := repository.store.requestsById, repository.store.metadataById;
      if FailureClock in faults || SettleFailureCall in faults {
        StatusesUnchanged(repository.store.requestsById);
        return Err(Thrown), Kept;
      }
      var attempt := Attempt(item.reservationRequest.id, item.sequence, env.startedAt, env.failedAt, UnexpectedError);
      var used := item.transientFailureCount + 1;
      if used < options.maxTransientFailures {
        var released := repository.ReleaseClaimedReservationRequestForRetry(item, attempt);
        if released.Err? {
          return Err(Thrown), Kept;
        }
        SettledCounts(requests, metadata, item.reservationRequest.id, REQUESTED,
                      repository.store.requestsById, repository.store.metadataById);
        return Ok(RetryableFailure(released.value, attempt, options.maxTransientFailures - used)), Erred(attempt);
      }
      var failed := repository.FailClaimedReservationRequest(item, attempt);
      if failed.Err? {
        return Err(Thrown), Kept;
      }
      SettledCounts(requests, metadata, item.reservationRequest.id, FAILED,
                    repository.store.requestsById, repository.store.metadataById);
      return Ok(FailedOutcome(failed.value, attempt)), Erred(attempt);
    }
  }
}
