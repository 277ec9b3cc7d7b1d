/** The in-memory work repository. Every method is proved against the queue it stands for; a
    JavaScript Map is scanned in an arbitrary order, so no result depends on insertion order. */
module InMemoryWorkRepository {
  import opened Domain
  import opened Queue
  import opened InMemoryStore

  datatype ClaimedReservationRequest = ClaimedReservationRequest(
    reservationRequest: ReservationRequest,
    sequence: nat,
    claimedBy: WorkerId,
    claimToken: ClaimToken,
    claimedAt: int,
    claimExpiresAt: int,
    leaseTimeoutCount: nat,
    transientFailureCount: nat)

  function TicketOf(item: ClaimedReservationRequest): Ticket {
    Ticket(item.reservationRequest.id, DemandOf(item.reservationRequest), item.sequence, item.claimedBy,
           item.claimToken, item.claimedAt, item.claimExpiresAt, item.leaseTimeoutCount, item.transientFailureCount)
  }

  datatype WorkError =
    | NotFound | SequenceChanged | ClaimLost | NotProcessing(status: Status)
    | ReservationExists

  datatype ConfirmResult =
    | ConfirmedResult(confirmed: ReservationRequest)
    | RejectedResult(rejected: ReservationRequest, attempt: Attempt)

  /** A claim was issued: the request is PROCESSING under the input's worker, token and lease, and the
      item says so. */
  ghost predicate Issued(requests: map<RequestId, ReservationRequest>, metadata: map<RequestId, Metadata>,
                         id: RequestId, input: ClaimInput, item: ClaimedReservationRequest,
                         requests': map<RequestId, ReservationRequest>, metadata': map<RequestId, Metadata>)
  {
    && id in requests && id in metadata
    && var timeouts := metadata[id].leaseTimeoutCount + if requests[id].status == PROCESSING then 1 else 0;
    && requests' == requests[id := requests[id].(status := PROCESSING)]
    && metadata' == metadata[id := Metadata(
         metadata[id].sequence, timeouts, metadata[id].transientFailureCount,
         Some(Claim(input.workerId, input.claimToken, input.claimedAt, input.claimExpiresAt, input.claimedAt)))]
    && item == ClaimedReservationRequest(
         requests[id].(status := PROCESSING), metadata[id].sequence, input.workerId, input.claimToken,
         input.claimedAt, input.claimExpiresAt, timeouts, metadata[id].transientFailureCount)
  }

  /** The request was failed instead, and its claim cleared. */
  ghost predicate TimedOut(requests: map<RequestId, ReservationRequest>, metadata: map<RequestId, Metadata>,
                           id: RequestId,
                           requests': map<RequestId, ReservationRequest>, metadata': map<RequestId, Metadata>)
  {
    && id in requests && id in metadata
    && requests' == requests[id := requests[id].(status := FAILED)]
    && metadata' == metadata[id := metadata[id].(claim := None)]
  }

  /** The request was closed or released: its new status, its claim cleared, a failure counted or not. */
  ghost predicate Settled(requests: map<RequestId, ReservationRequest>, metadata: map<RequestId, Metadata>,
                          id: RequestId, status: Status, transientFailure: bool,
                          requests': map<RequestId, ReservationRequest>, metadata': map<RequestId, Metadata>)
  {
    && id in requests && id in metadata
    && requests' == requests[id := requests[id].(status := status)]
    && metadata' == metadata[id := metadata[id].(
         claim := None,
         transientFailureCount := metadata[id].transientFailureCount + if transientFailure then 1 else 0)]
  }

  class WorkRepository {
    const store: Store

    constructor (store: Store)
      ensures this.store == store
    {
      this.store := store;
    }

    /** The claim scan: in whatever order the map yields its entries, the item kept at the end is
        the eligible request of least sequence. */
    method FindNextWorkItem(input: ClaimInput) returns (next: Option<ClaimedReservationRequest>)
      requires store.Valid()
      ensures next.None? ==> NothingEligible(store.View(), input, {})
      ensures next.Some? ==>
                var id := next.value.reservationRequest.id;
                && IsHead(store.View(), id, input, {})
                && next.value.reservationRequest == store.requestsById[id]
                && TicketOf(next.value) == TicketFor(id, store.View().rows[id], input)
      ensures next.Some? ==> WaitsOrExpired(store.requestsById, store.metadataById, next.value.reservationRequest.id,
                                            input)
      ensures forall id | WaitsOrExpired(store.requestsById, store.metadataById, id, input) ::
                && next.Some? && next.value.reservationRequest.id in store.metadataById
                && store.metadataById[next.value.reservationRequest.id].sequence <= store.metadataById[id].sequence
    {
      ScanIsRaw(store.requestsById, store.metadataById, store.nextSequence, store.View(), input);
      hide IsHead, NothingEligible, TicketFor, RowsOf, BookingsOf, WaitsOrExpired;
      ghost var q := store.View();
      next := None;
      var remaining := store.requestsById.Keys;
      ScanStarts(store.requestsById, store.metadataById, q, input);
      while remaining != {}
        invariant remaining <= store.requestsById.Keys
        invariant LeastSoFar(q, input, remaining, KeyOf(next))
        invariant next.Some? ==> StandsFor(next.value, store.requestsById, q, input)
      {
        var id :| id in remaining;
        ScanStep(q, input, remaining, id, KeyOf(next)) by { RowAt(store.requestsById, store.metadataById, id, input); }
        remaining := remaining - {id};
        var request, metadata := store.requestsById[id], store.metadataById[id];
        RowAt(store.requestsById, store.metadataById, id, input);

        if request.status == REQUESTED && metadata.transientFailureCount >= input.maxTransientFailures {
          continue;
        }
        if request.status != REQUESTED && !IsExpiredProcessing(request, metadata, input.claimedAt) {
          continue;
        }
        if next.None? || metadata.sequence < next.value.sequence {
          next := Some(ClaimedReservationRequest(
                         request, metadata.sequence, input.workerId, input.claimToken,
                         input.claimedAt, input.claimExpiresAt,
                         metadata.leaseTimeoutCount
                         + (if IsExpiredProcessing(request, metadata, input.claimedAt) then 1 else 0),
                         metadata.transientFailureCount));
        }
      }
    }

    /** Claims the eligible request of least sequence, or fails it when its lease budget is spent;
        returns no item exactly when nothing was eligible or the head was failed. */
    method ClaimNextPendingReservationRequest(input: ClaimInput)
      returns (item: Option<ClaimedReservationRequest>, ghost head: Option<RequestId>)
      requires store.Valid()
      modifies store
      ensures unchanged(store`nextSequence)
      ensures store.Valid() && unchanged(store`reservationsById)
      ensures OnlyStatusesChange(old(store.requestsById), store.requestsById)
      ensures head.None? ==>
                item.None? && NothingEligible(old(store.View()), input, {}) && store.View() == old(store.View())
      ensures head.Some? ==>
                && IsHead(old(store.View()), head.value, input, {})
                && store.View() == ClaimHead(old(store.View()), head.value, input)
                && (item.None? <==> LeaseBudgetSpent(old(store.View()).rows[head.value], input))
      ensures item.Some? ==>
                && head.Some?
                && TicketOf(item.value) == TicketFor(head.value, old(store.View()).rows[head.value], input)
                && head.value in old(store.requestsById)
                && item.value.reservationRequest == old(store.requestsById)[head.value].(status := PROCESSING)
      ensures item.Some? ==>
                && unchanged(store`attemptsByRequestId)
                && Issued(old(store.requestsById), old(store.metadataById), head.value, input, item.value,
                          store.requestsById, store.metadataById)
      ensures item.None? && head.Some? ==>
                && head.value in old(store.metadataById)
                && TimedOut(old(store.requestsById), old(store.metadataById), head.value,
                            store.requestsById, store.metadataById)
                && store.attemptsByRequestId
                   == Append(old(store.attemptsByRequestId),
                             Attempt(head.value, old(store.metadataById)[head.value].sequence,
                                     input.claimedAt, input.claimedAt, LeaseTimeout))
    {
      var next := FindNextWorkItem(input);
      hide OnlyStatusesChange, NothingEligible;
      if next.None? {
        StatusesUnchanged(store.requestsById);
        return None, None;
      }

      var selected := next.value.reservationRequest;
      head := Some(selected.id);
      var metadata := store.metadataById[selected.id];
      HeadIsClaimed(store.requestsById, store.metadataById, store.View(), selected.id, input, next.value);
      hide IsHead, RowsOf, BookingsOf, SeatSet, Numbered, Issued, TimedOut, ClaimHead, LeaseBudgetSpent, TicketFor,
        IsExpiredProcessing;
      if IsExpiredProcessing(selected, metadata, input.claimedAt)
         && metadata.leaseTimeoutCount >= input.maxLeaseTimeouts {
        FailExpiredClaimAfterLeaseTimeoutBudget(selected, input.claimedAt);
        return None, head;
      }

      var processing := if selected.status == PROCESSING then selected
                        else StartProcessing(selected).Extract();
      var claimed := Metadata(next.value.sequence, next.value.leaseTimeoutCount, next.value.transientFailureCount,
                              Some(Claim(input.workerId, input.claimToken, input.claimedAt,
                                         input.claimExpiresAt, input.claimedAt)));
      StatusWritten(store.requestsById, selected.id, processing);
      StoreClaimed(processing, claimed);
      item := Some(next.value.(reservationRequest := processing));
    }

    /** The two writes of a successful claim. */
    method StoreClaimed(request: ReservationRequest, metadata: Metadata)
      requires store.Valid() && request.id in store.requestsById
      requires metadata.sequence == store.metadataById[request.id].sequence
      modifies store`requestsById, store`metadataById
      ensures store.Valid() && store.requestsById == old(store.requestsById)[request.id := request]
      ensures store.metadataById == old(store.metadataById)[request.id := metadata]
      ensures store.View() == old(store.View()).(rows := old(store.View()).rows[request.id := RowOf(request, metadata)])
    {
      RowWritten(store.requestsById, store.metadataById, request.id, request, metadata);
      RewriteKeepsNumbered(store.requestsById, store.metadataById, store.nextSequence, request.id, request, metadata);
      store.requestsById := store.requestsById[request.id := request];
      store.UpdateMetadata(request.id, metadata);
    }

    /** Renews the lease exactly when the claim is still held. */
    method HeartbeatClaimedReservationRequest(item: ClaimedReservationRequest, heartbeatAt: int, claimExpiresAt: int)
      returns (renewed: bool)
      requires store.Valid()
      modifies store
      ensures unchanged(store`nextSequence)
      ensures store.Valid()
      ensures renewed <==> Holds(old(store.View()), TicketOf(item))
      ensures store.View() == Heartbeat(old(store.View()), TicketOf(item), heartbeatAt, claimExpiresAt)
      ensures unchanged(store`requestsById) && unchanged(store`reservationsById) && unchanged(store`attemptsByRequestId)
      ensures !renewed ==> unchanged(store)
      ensures renewed <==>
                var id := item.reservationRequest.id;
                && id in old(store.requestsById) && old(store.requestsById)[id].status == PROCESSING
                && id in old(store.metadataById) && old(store.metadataById)[id].claim.Some?
                && old(store.metadataById)[id].claim.value.worker == item.claimedBy
                && old(store.metadataById)[id].claim.value.token == item.claimToken
      ensures renewed ==>
                var id, metadata := item.reservationRequest.id, old(store.metadataById);
                && id in metadata && metadata[id].claim.Some?
                && store.metadataById == metadata[id := metadata[id].(claim := Some(Claim(
                     item.claimedBy, item.claimToken, metadata[id].claim.value.claimedAt,
                     claimExpiresAt, heartbeatAt)))]
    {
      var id := item.reservationRequest.id;
      ghost var before, requests, all := store.View(), store.requestsById, store.metadataById;
      HoldsOnMaps(requests, all, store.nextSequence, before, item);
      hide Numbered, RowsOf, BookingsOf, Renew, Holds;
      if id !in store.requestsById || store.requestsById[id].status != PROCESSING {
        return false;
      }
      var metadata := store.metadataById[id];
      if !HeldBy(metadata, item) {
        return false;
      }
      var renewedMetadata := metadata.(claim :=
          Some(metadata.claim.value.(expiresAt := claimExpiresAt, heartbeatAt := heartbeatAt)));
      RequestRenews(requests, all, store.nextSequence, before, id, heartbeatAt, claimExpiresAt);
      store.UpdateMetadata(id, renewedMetadata);
      assert store.metadataById == all[id := renewedMetadata];
      assert store.View() == Renew(before, id, heartbeatAt, claimExpiresAt);
      renewed := true;
    }

    /** A reservation of the screening that shares a seat, if there is one. */
    method FindConflictingConfirmedReservation(screeningId: ScreeningId, seatIds: seq<SeatId>)
      returns (conflict: Option<Reservation>)
      requires store.Valid()
      ensures conflict.Some? ==>
                && conflict.value.id in store.reservationsById
                && store.reservationsById[conflict.value.id] == conflict.value
                && conflict.value.screeningId == screeningId
                && exists seatId :: seatId in conflict.value.seatIds && seatId in seatIds
      ensures conflict.None? ==>
                forall rid, seatId |
                  && rid in store.reservationsById && store.reservationsById[rid].screeningId == screeningId
                  && seatId in store.reservationsById[rid].seatIds ::
                  seatId !in seatIds
    {
      var requested := SeatSet(seatIds);
      var remaining := store.reservationsById.Keys;
      while remaining != {}
        invariant remaining <= store.reservationsById.Keys
        invariant forall rid, seatId |
                    && rid in store.reservationsById && rid !in remaining
                    && store.reservationsById[rid].screeningId == screeningId
                    && seatId in store.reservationsById[rid].seatIds ::
                    seatId !in seatIds
      {
        var rid :| rid in remaining;
        remaining := remaining - {rid};
        var reservation := store.reservationsById[rid];
        if reservation.screeningId != screeningId {
          continue;
        }
        if exists seatId | seatId in reservation.seatIds :: seatId in requested {
          return Some(reservation);
        }
      }
      conflict := None;
    }

    /** Confirms the claimed request, or rejects it when a seat is already sold. */
    method ConfirmClaimedReservationRequest(item: ClaimedReservationRequest, reservation: Reservation, attempt: Attempt)
      returns (r: Result<ConfirmResult, WorkError>)
      requires store.Valid()
      modifies store
      ensures unchanged(store`nextSequence)
      ensures store.Valid()
      ensures OnlyStatusesChange(old(store.requestsById), store.requestsById)
      ensures r.Ok? <==> Owns(old(store.View()), TicketOf(item)) && reservation.id !in old(store.reservationsById)
      ensures r.Err? ==> unchanged(store)
      ensures old(RequireClaimedProcessingRequest(item)).Err? ==>
                r == Err(old(RequireClaimedProcessingRequest(item)).error)
      ensures old(RequireClaimedProcessingRequest(item)).Ok? && r.Err? ==> r == Err(ReservationExists)
      ensures r.Ok? ==>
                && Settled(old(store.requestsById), old(store.metadataById), item.reservationRequest.id,
                           if r.value.ConfirmedResult? then CONFIRMED else REJECTED, false,
                           store.requestsById, store.metadataById)
                && store.requestsById[item.reservationRequest.id]
                   == if r.value.ConfirmedResult? then r.value.confirmed else r.value.rejected
      ensures r.Ok? ==>
                (r.value.ConfirmedResult? <==> !HasConflict(old(store.View()), BookingOf(reservation).demand))
      ensures r.Ok? && r.value.ConfirmedResult? ==>
                && store.View() == Book(Settle(old(store.View()), item.reservationRequest.id, CONFIRMED, false,
                                               attempt),
                                        reservation.id, BookingOf(reservation))
                && store.reservationsById == old(store.reservationsById)[reservation.id := reservation]
      ensures r.Ok? && r.value.RejectedResult? ==>
                && r.value.attempt.outcome.Rejected?
                && r.value.attempt == Attempt(item.reservationRequest.id, item.sequence, attempt.startedAt,
                                              attempt.completedAt, r.value.attempt.outcome)
                && var c := r.value.attempt.outcome.conflictingReservationId;
                && c in old(store.View()).bookings
                && Conflicts(old(store.View()).bookings[c], BookingOf(reservation).demand)
                && store.View() == Settle(old(store.View()), item.reservationRequest.id, REJECTED, false,
                                          r.value.attempt)
                && unchanged(store`reservationsById)
    {
      var current :- RequireClaimedProcessingRequest(item);
      if reservation.id in store.reservationsById {
        return Err(ReservationExists);
      }
      var conflict := FindConflictingConfirmedReservation(reservation.screeningId, reservation.seatIds);
      LookupFindsConflicts(store.reservationsById, conflict, reservation.screeningId, reservation.seatIds,
                           BookingOf(reservation).demand);
      var result := FinishConfirm(current, conflict, item, reservation, attempt);
      r := Ok(result);
    }

    /** What confirm writes after its lookup returned, from the request it had read before it. */
    method FinishConfirm(current: ReservationRequest, conflict: Option<Reservation>,
                         item: ClaimedReservationRequest, reservation: Reservation, attempt: Attempt)
      returns (r: ConfirmResult)
      requires store.Valid()
      requires current.id in store.requestsById && current.status == PROCESSING
      requires store.requestsById[current.id].(status := PROCESSING) == current
      modifies store
      ensures unchanged(store`nextSequence)
      ensures store.Valid()
      ensures OnlyStatusesChange(old(store.requestsById), store.requestsById)
      ensures Settled(old(store.requestsById), old(store.metadataById), current.id,
                      if conflict.None? then CONFIRMED else REJECTED, false, store.requestsById, store.metadataById)
      ensures conflict.None? ==>
                && r == ConfirmedResult(current.(status := CONFIRMED))
                && store.View() == Book(Settle(old(store.View()), current.id, CONFIRMED, false, attempt),
                                        reservation.id, BookingOf(reservation))
                && store.reservationsById == old(store.reservationsById)[reservation.id := reservation]
      ensures conflict.Some? ==>
                && r == RejectedResult(current.(status := REJECTED),
                                       Attempt(current.id, item.sequence, attempt.startedAt, attempt.completedAt,
                                               Rejected(conflict.value.id)))
                && store.View() == Settle(old(store.View()), current.id, REJECTED, false, r.attempt)
                && unchanged(store`reservationsById)
    {
      if conflict.Some? {
        var rejected := RejectRequest(current).Extract();
        var rejectedAttempt := Attempt(current.id, item.sequence, attempt.startedAt, attempt.completedAt,
                                       Rejected(conflict.value.id));
        Close(rejected, false, rejectedAttempt);
        return RejectedResult(rejected, rejectedAttempt);
      }
      var confirmed := ConfirmRequest(current).Extract();
      ghost var before := store.View();
      store.reservationsById := store.reservationsById[reservation.id := reservation];
      assert store.View() == Book(before, reservation.id, BookingOf(reservation));
      Close(confirmed, false, attempt);
      r := ConfirmedResult(confirmed);
    }

    method RejectClaimedReservationRequest(item: ClaimedReservationRequest, attempt: Attempt)
      returns (r: Result<ReservationRequest, WorkError>)
      requires store.Valid()
      modifies store
      ensures unchanged(store`nextSequence)
      ensures store.Valid() && unchanged(store`reservationsById)
      ensures OnlyStatusesChange(old(store.requestsById), store.requestsById)
      ensures r.Ok? <==> Owns(old(store.View()), TicketOf(item))
      ensures r.Ok? ==>
                store.View() == Settle(old(store.View()), item.reservationRequest.id, REJECTED, false, attempt)
      ensures r.Ok? ==>
                && Settled(old(store.requestsById), old(store.metadataById), item.reservationRequest.id,
                           REJECTED, false, store.requestsById, store.metadataById)
                && r.value == store.requestsById[item.reservationRequest.id]
      ensures r.Err? ==> r == old(RequireClaimedProcessingRequest(item))
      ensures r.Err? ==> unchanged(store)
    {
      var current :- RequireClaimedProcessingRequest(item);
      var rejected := RejectRequest(current).Extract();
      Close(rejected, false, attempt);
      r := Ok(rejected);
    }

    method ReleaseClaimedReservationRequestForRetry(item: ClaimedReservationRequest, attempt: Attempt)
      returns (r: Result<ReservationRequest, WorkError>)
      requires store.Valid()
      modifies store
      ensures unchanged(store`nextSequence)
      ensures store.Valid() && unchanged(store`reservationsById)
      ensures OnlyStatusesChange(old(store.requestsById), store.requestsById)
      ensures r.Ok? <==> Owns(old(store.View()), TicketOf(item))
      ensures r.Ok? ==>
                store.View() == Settle(old(store.View()), item.reservationRequest.id, REQUESTED, true, attempt)
      ensures r.Ok? ==>
                && Settled(old(store.requestsById), old(store.metadataById), item.reservationRequest.id,
                           REQUESTED, true, store.requestsById, store.metadataById)
                && r.value == store.requestsById[item.reservationRequest.id]
      ensures r.Err? ==> r == old(RequireClaimedProcessingRequest(item))
      ensures r.Err? ==> unchanged(store)
    {
      var current :- RequireClaimedProcessingRequest(item);
      var retryable := current.(status := REQUESTED);
      Close(retryable, true, attempt);
      r := Ok(retryable);
    }

    method FailClaimedReservationRequest(item: ClaimedReservationRequest, attempt: Attempt)
      returns (r: Result<ReservationRequest, WorkError>)
      requires store.Valid()
      modifies store
      ensures unchanged(store`nextSequence)
      ensures store.Valid() && unchanged(store`reservationsById)
      ensures OnlyStatusesChange(old(store.requestsById), store.requestsById)
      ensures r.Ok? <==> Owns(old(store.View()), TicketOf(item))
      ensures r.Ok? ==>
                store.View() == Settle(old(store.View()), item.reservationRequest.id, FAILED, true, attempt)
      ensures r.Ok? ==>
                && Settled(old(store.requestsById), old(store.metadataById), item.reservationRequest.id, FAILED, true,
                           store.requestsById, store.metadataById)
                && r.value == store.requestsById[item.reservationRequest.id]
      ensures r.Err? ==> r == old(RequireClaimedProcessingRequest(item))
      ensures r.Err? ==> unchanged(store)
    {
      var current :- RequireClaimedProcessingRequest(item);
      var failed := FailRequest(current).Extract();
      Close(failed, true, attempt);
      r := Ok(failed);
    }

    /** The ownership check: right id, sequence, worker and token, and still PROCESSING. */
    function RequireClaimedProcessingRequest(item: ClaimedReservationRequest)
      : (r: Result<ReservationRequest, WorkError>)
      requires store.Valid()
      reads this, store
      ensures r.Ok? <==> Owns(store.View(), TicketOf(item))
      ensures r.Ok? ==> r.value == store.requestsById[item.reservationRequest.id]
      ensures r.Ok? <==>
                var id := item.reservationRequest.id;
                && id in store.requestsById && store.requestsById[id].status == PROCESSING
                && store.metadataById[id].sequence == item.sequence && store.metadataById[id].claim.Some?
                && store.metadataById[id].claim.value.worker == item.claimedBy
                && store.metadataById[id].claim.value.token == item.claimToken
      ensures r == Err(NotFound) <==> item.reservationRequest.id !in store.requestsById
      ensures r.Err? && !r.error.NotFound? ==>
                var metadata := store.metadataById[item.reservationRequest.id];
                var held := metadata.claim.Some? && metadata.claim.value.worker == item.claimedBy
                            && metadata.claim.value.token == item.claimToken;
                && (r.error.SequenceChanged? <==> metadata.sequence != item.sequence)
                && (r.error.ClaimLost? <==> metadata.sequence == item.sequence && !held)
                && (r.error.NotProcessing? <==> metadata.sequence == item.sequence && held)
                && (r.error.NotProcessing? ==> r.error.status == store.requestsById[item.reservationRequest.id].status)
                && !r.error.ReservationExists?
    {
      var id := item.reservationRequest.id;
      if id !in store.requestsById then Err(NotFound)
      else
        var metadata := store.metadataById[id];
        if metadata.sequence != item.sequence then Err(SequenceChanged)
        else if !HeldBy(metadata, item) then Err(ClaimLost)
        else if store.requestsById[id].status != PROCESSING then Err(NotProcessing(store.requestsById[id].status))
        else Ok(store.requestsById[id])
    }

    /** Stores the request with its new status, counts a transient failure if asked, clears the
        claim and records the attempt. */
    method Close(request: ReservationRequest, transientFailure: bool, attempt: Attempt)
      requires store.Valid()
      requires request.id in store.requestsById
      requires store.requestsById[request.id].(status := request.status) == request
      modifies store`requestsById, store`metadataById, store`attemptsByRequestId
      ensures store.Valid()
      ensures OnlyStatusesChange(old(store.requestsById), store.requestsById)
      ensures store.View() == Settle(old(store.View()), request.id, request.status, transientFailure, attempt)
      ensures Settled(old(store.requestsById), old(store.metadataById), request.id, request.status, transientFailure,
                      store.requestsById, store.metadataById)
      ensures store.attemptsByRequestId == Append(old(store.attemptsByRequestId), attempt)
    {
      ghost var requests, metadata, next := store.requestsById, store.metadataById, store.nextSequence;
      ghost var reservations, log, before := store.reservationsById, store.attemptsByRequestId, store.View();
      RequestCloses(requests, metadata, next, reservations, log, request, transientFailure, attempt);
      hide OnlyStatusesChange, Numbered, RowsOf, BookingsOf, ClosedMetadata, Settle, Settled, Append, DemandOf;
      store.requestsById := store.requestsById[request.id := request];
      CloseMetadata(request.id, transientFailure);
      store.RecordProcessingAttempt(attempt);
      assert store.metadataById == metadata[request.id := ClosedMetadata(metadata[request.id], transientFailure)];
      assert store.attemptsByRequestId == Append(log, attempt);
      assert store.View() == Settle(before, request.id, request.status, transientFailure, attempt);
    }

    method CloseMetadata(id: RequestId, transientFailure: bool)
      requires id in store.metadataById
      modifies store`metadataById
      ensures store.metadataById
           == old(store.metadataById)[id := ClosedMetadata(old(store.metadataById)[id], transientFailure)]
    {
      if transientFailure {
        IncrementTransientFailureCount(id);
      }
      ClearClaimMetadata(id);
    }

    method ClearClaimMetadata(id: RequestId)
      requires id in store.metadataById
      modifies store`metadataById
      ensures store.metadataById == old(store.metadataById)[id := old(store.metadataById)[id].(claim := None)]
    {
      store.UpdateMetadata(id, store.metadataById[id].(claim := None));
    }

    method IncrementTransientFailureCount(id: RequestId)
      requires id in store.metadataById
      modifies store`metadataById
      ensures store.metadataById
           == old(store.metadataById)[id := old(store.metadataById)[id].(transientFailureCount :=
                                              old(store.metadataById)[id].transientFailureCount + 1)]
    {
      var metadata := store.metadataById[id];
      store.UpdateMetadata(id, metadata.(transientFailureCount := metadata.transientFailureCount + 1));
    }

    method FailExpiredClaimAfterLeaseTimeoutBudget(request: ReservationRequest, failedAt: int)
      requires store.Valid()
      requires request.id in store.requestsById && store.requestsById[request.id] == request
      requires request.status == PROCESSING
      modifies store`requestsById, store`metadataById, store`attemptsByRequestId
      ensures store.Valid()
      ensures OnlyStatusesChange(old(store.requestsById), store.requestsById)
      ensures store.View()
           == Settle(old(store.View()), request.id, FAILED, false,
                     Attempt(request.id, old(store.View()).rows[request.id].sequence, failedAt, failedAt, LeaseTimeout))
      ensures TimedOut(old(store.requestsById), old(store.metadataById), request.id,
                       store.requestsById, store.metadataById)
      ensures store.attemptsByRequestId
           == Append(old(store.attemptsByRequestId),
                     Attempt(request.id, old(store.metadataById)[request.id].sequence, failedAt, failedAt,
                             LeaseTimeout))
    {
      var sequence := store.metadataById[request.id].sequence;
      Close(FailRequest(request).Extract(), false,
            Attempt(request.id, sequence, failedAt, failedAt, LeaseTimeout));
    }
  }

  function ClosedMetadata(metadata: Metadata, transientFailure: bool): Metadata {
    metadata.(claim := None,
              transientFailureCount := metadata.transientFailureCount + if transientFailure then 1 else 0)
  }

  /** What claiming the head writes, on the maps. */
  lemma HeadIsClaimed(requests: map<RequestId, ReservationRequest>, metadata: map<RequestId, Metadata>, q: State,
                      id: RequestId, input: ClaimInput, item: ClaimedReservationRequest)
    requires q.rows == RowsOf(requests, metadata) && id in requests && id in metadata && IsHead(q, id, input, {})
    requires item.reservationRequest == requests[id] && requests[id].id == id
    requires TicketOf(item) == TicketFor(id, q.rows[id], input)
    ensures requests[id].status == PROCESSING || requests[id].status == REQUESTED
    ensures LeaseBudgetSpent(q.rows[id], input) <==>
              IsExpiredProcessing(requests[id], metadata[id], input.claimedAt)
              && metadata[id].leaseTimeoutCount >= input.maxLeaseTimeouts
    ensures q.rows[id].sequence == metadata[id].sequence
    ensures LeaseBudgetSpent(q.rows[id], input) ==>
              ClaimHead(q, id, input)
              == Settle(q, id, FAILED, false,
                        Attempt(id, metadata[id].sequence, input.claimedAt, input.claimedAt, LeaseTimeout))
    ensures !LeaseBudgetSpent(q.rows[id], input) ==>
              var processing := requests[id].(status := PROCESSING);
              var claimed := Metadata(item.sequence, item.leaseTimeoutCount, item.transientFailureCount,
                                      Some(Claim(input.workerId, input.claimToken, input.claimedAt,
                                                 input.claimExpiresAt, input.claimedAt)));
              var issued := item.(reservationRequest := processing);
              && claimed.sequence == metadata[id].sequence
              && ClaimHead(q, id, input) == q.(rows := q.rows[id := RowOf(processing, claimed)])
              && TicketOf(issued) == TicketFor(id, q.rows[id], input)
              && Issued(requests, metadata, id, input, issued, requests[id := processing], metadata[id := claimed])
  {
    RowRead(requests, metadata, id);
    hide RowsOf, SeatSet, IsHead;
    assert Eligible(q.rows[id], input) by { HeadIsEligible(q, id, input); }
  }

  lemma HeadIsEligible(q: State, id: RequestId, input: ClaimInput)
    requires IsHead(q, id, input, {})
    ensures id in q.rows && Eligible(q.rows[id], input)
  {
  }

  lemma ClosedMetadataIs(metadata: Metadata, transientFailure: bool)
    ensures ClosedMetadata(metadata, transientFailure) == Metadata(
              metadata.sequence, metadata.leaseTimeoutCount,
              metadata.transientFailureCount + (if transientFailure then 1 else 0), None)
  {
  }

  lemma ClosedRows(requests: map<RequestId, ReservationRequest>, metadata: map<RequestId, Metadata>,
                   request: ReservationRequest, transientFailure: bool)
    requires request.id in requests && request.id in metadata
    requires request == requests[request.id].(status := request.status)
    ensures request.id in RowsOf(requests, metadata)
    ensures RowsOf(requests[request.id := request],
                   metadata[request.id := ClosedMetadata(metadata[request.id], transientFailure)])
         == RowsOf(requests, metadata)[
              request.id := Closed(RowsOf(requests, metadata)[request.id], request.status, transientFailure)]
  {
    hide RowsOf, SeatSet;
    RowWritten(requests, metadata, request.id, request, ClosedMetadata(metadata[request.id], transientFailure));
    RowRead(requests, metadata, request.id);
  }

  lemma RowRead(requests: map<RequestId, ReservationRequest>, metadata: map<RequestId, Metadata>, id: RequestId)
    requires id in requests && id in metadata
    ensures id in RowsOf(requests, metadata) && RowsOf(requests, metadata)[id] == RowOf(requests[id], metadata[id])
  {
  }

  lemma ClosingKeepsNumbered(requests: map<RequestId, ReservationRequest>, metadata: map<RequestId, Metadata>,
                             next: nat, request: ReservationRequest, transientFailure: bool)
    requires Numbered(requests, metadata, next) && request.id in requests
    requires request == requests[request.id].(status := request.status)
    ensures request.id in metadata
    ensures Numbered(requests[request.id := request],
                     metadata[request.id := ClosedMetadata(metadata[request.id], transientFailure)], next)
    ensures OnlyStatusesChange(requests, requests[request.id := request])
  {
    var closed := ClosedMetadata(metadata[request.id], transientFailure);
    hide Numbered, OnlyStatusesChange;
    RewriteKeepsNumbered(requests, metadata, next, request.id, request, closed);
    StatusWritten(requests, request.id, request);
  }

  /** The writes that close a request, on the maps. */
  lemma RequestCloses(requests: map<RequestId, ReservationRequest>, metadata: map<RequestId, Metadata>, next: nat,
                      reservations: map<ReservationId, Reservation>, log: map<RequestId, seq<Attempt>>,
                      request: ReservationRequest, transientFailure: bool, attempt: Attempt)
    requires Numbered(requests, metadata, next) && request.id in requests
    requires request == requests[request.id].(status := request.status)
    ensures request.id in metadata && request.id in RowsOf(requests, metadata)
    ensures var requests' := requests[request.id := request];
            var metadata' := metadata[request.id := ClosedMetadata(metadata[request.id], transientFailure)];
            && Numbered(requests', metadata', next) && OnlyStatusesChange(requests, requests')
            && Settled(requests, metadata, request.id, request.status, transientFailure, requests', metadata')
            && State(RowsOf(requests', metadata'), BookingsOf(reservations), Append(log, attempt))
               == Settle(State(RowsOf(requests, metadata), BookingsOf(reservations), log),
                         request.id, request.status, transientFailure, attempt)
  {
    hide Numbered, OnlyStatusesChange, Append, DemandOf, RowsOf, BookingsOf, ClosedMetadata, Closed;
    ClosingKeepsNumbered(requests, metadata, next, request, transientFailure);
    ClosedMetadataIs(metadata[request.id], transientFailure);
    ClosedRows(requests, metadata, request, transientFailure);
  }

  /** The write of a heartbeat, on the maps. */
  lemma RequestRenews(requests: map<RequestId, ReservationRequest>, metadata: map<RequestId, Metadata>, next: nat,
                      q: State, id: RequestId, at: int, expiresAt: int)
    requires Numbered(requests, metadata, next) && id in requests && q.rows == RowsOf(requests, metadata)
    requires id in metadata ==> metadata[id].claim.Some?
    ensures id in metadata && id in q.rows && q.rows[id].claim.Some?
    ensures var claim := metadata[id].claim.value.(expiresAt := expiresAt, heartbeatAt := at);
            var metadata' := metadata[id := metadata[id].(claim := Some(claim))];
            && Numbered(requests, metadata', next)
            && Renew(q, id, at, expiresAt) == q.(rows := RowsOf(requests, metadata'))
  {
    assert id in metadata.Keys;
    hide Numbered, RowsOf, DemandOf;
    RowRead(requests, metadata, id);
    var claim := metadata[id].claim.value.(expiresAt := expiresAt, heartbeatAt := at);
    RowWritten(requests, metadata, id, requests[id], metadata[id].(claim := Some(claim)));
    RequestIsKeyed(requests, metadata, next, id);
    RewriteKeepsNumbered(requests, metadata, next, id, requests[id], metadata[id].(claim := Some(claim)));
    assert requests[id := requests[id]] == requests;
  }

  /** The handle is valid exactly when the three checks of a heartbeat pass. */
  lemma HoldsOnMaps(requests: map<RequestId, ReservationRequest>, metadata: map<RequestId, Metadata>, next: nat,
                    q: State, item: ClaimedReservationRequest)
    requires Numbered(requests, metadata, next) && q.rows == RowsOf(requests, metadata)
    ensures var id := item.reservationRequest.id;
            && (id in requests <==> id in metadata)
            && (Holds(q, TicketOf(item)) <==>
                  id in requests && requests[id].status == PROCESSING && HeldBy(metadata[id], item))
  {
    assert item.reservationRequest.id in requests.Keys <==> item.reservationRequest.id in metadata.Keys;
  }

  lemma RequestIsKeyed(requests: map<RequestId, ReservationRequest>, metadata: map<RequestId, Metadata>, next: nat,
                       id: RequestId)
    requires Numbered(requests, metadata, next) && id in requests
    ensures requests[id].id == id
  {
  }

  // ---------- the scan ----------

  function KeyOf(item: Option<ClaimedReservationRequest>): Option<RequestId> {
    if item.None? then None else Some(item.value.reservationRequest.id)
  }

  /** The head among the requests scanned, that is, those not in `remaining`. */
  ghost predicate LeastSoFar(q: State, input: ClaimInput, remaining: set<RequestId>, key: Option<RequestId>) {
    if key.None? then NothingEligible(q, input, remaining) else IsHead(q, key.value, input, remaining)
  }

  /** The item is the stored request with the ticket its claim will have. */
  ghost predicate StandsFor(item: ClaimedReservationRequest, requests: map<RequestId, ReservationRequest>, q: State,
                            input: ClaimInput)
  {
    var id := item.reservationRequest.id;
    && id in requests && id in q.rows
    && item.reservationRequest == requests[id] && TicketOf(item) == TicketFor(id, q.rows[id], input)
    && item.sequence == q.rows[id].sequence
  }

  /** REQUESTED with attempts left, or PROCESSING with its lease run out. */
  ghost predicate WaitsOrExpired(requests: map<RequestId, ReservationRequest>, metadata: map<RequestId, Metadata>,
                                 id: RequestId, input: ClaimInput)
  {
    && id in requests && id in metadata
    && (|| (requests[id].status == REQUESTED && metadata[id].transientFailureCount < input.maxTransientFailures)
        || (requests[id].status == PROCESSING
            && (metadata[id].claim.None? || metadata[id].claim.value.expiresAt <= input.claimedAt)))
  }

  /** The queue's head is the first of those. */
  lemma ScanIsRaw(requests: map<RequestId, ReservationRequest>, metadata: map<RequestId, Metadata>, next: nat, q: State,
                  input: ClaimInput)
    requires Numbered(requests, metadata, next) && q.rows == RowsOf(requests, metadata)
    ensures NothingEligible(q, input, {}) ==> forall id :: !WaitsOrExpired(requests, metadata, id, input)
    ensures forall head | IsHead(q, head, input, {}) ::
              && WaitsOrExpired(requests, metadata, head, input)
              && forall id | WaitsOrExpired(requests, metadata, id, input) ::
                   metadata[head].sequence <= metadata[id].sequence
  {
    assert requests.Keys == metadata.Keys;
    assert forall id | id in requests :: q.rows[id] == RowOf(requests[id], metadata[id]);
    hide SeatSet;
  }

  lemma ScanStarts(requests: map<RequestId, ReservationRequest>, metadata: map<RequestId, Metadata>, q: State,
                   input: ClaimInput)
    requires q.rows == RowsOf(requests, metadata)
    ensures LeastSoFar(q, input, requests.Keys, None)
  {
  }

  /** One more request scanned: it becomes the head if it is eligible and comes before the head so far. */
  lemma ScanStep(q: State, input: ClaimInput, remaining: set<RequestId>, id: RequestId, key: Option<RequestId>)
    requires LeastSoFar(q, input, remaining, key) && id in remaining && id in q.rows
    requires key.Some? ==> key.value in q.rows
    ensures LeastSoFar(q, input, remaining - {id},
                       if Eligible(q.rows[id], input)
                          && (key.None? || q.rows[id].sequence < q.rows[key.value].sequence) then Some(id) else key)
  {
  }

  /** The row of one map entry, when the scan skips it, and the ticket a claim of it would have. */
  lemma RowAt(requests: map<RequestId, ReservationRequest>, metadata: map<RequestId, Metadata>, id: RequestId,
              input: ClaimInput)
    requires id in requests && id in metadata && requests[id].id == id
    ensures id in RowsOf(requests, metadata)
    ensures var row, request, data := RowsOf(requests, metadata)[id], requests[id], metadata[id];
            && row.sequence == data.sequence
            && (Eligible(row, input) <==>
                  || (request.status == REQUESTED && data.transientFailureCount < input.maxTransientFailures)
                  || IsExpiredProcessing(request, data, input.claimedAt))
            && TicketFor(id, row, input)
               == TicketOf(ClaimedReservationRequest(
                             request, data.sequence, input.workerId, input.claimToken, input.claimedAt,
                             input.claimExpiresAt,
                             data.leaseTimeoutCount
                             + (if IsExpiredProcessing(request, data, input.claimedAt) then 1 else 0),
                             data.transientFailureCount))
  {
  }

  /** What the lookup's answer says about the queue. */
  lemma LookupFindsConflicts(reservations: map<ReservationId, Reservation>, conflict: Option<Reservation>,
                             screeningId: ScreeningId, seatIds: seq<SeatId>, demand: Demand)
    requires demand.screening == screeningId && demand.seats == SeatSet(seatIds)
    requires conflict.Some? ==>
               && conflict.value.id in reservations && reservations[conflict.value.id] == conflict.value
               && conflict.value.screeningId == screeningId
               && exists seatId :: seatId in conflict.value.seatIds && seatId in seatIds
    requires conflict.None? ==>
               forall rid, seatId |
                 && rid in reservations && reservations[rid].screeningId == screeningId
                 && seatId in reservations[rid].seatIds ::
                 seatId !in seatIds
    ensures forall q: State | q.bookings == BookingsOf(reservations) ::
              && (conflict.None? <==> !HasConflict(q, demand))
              && (conflict.Some? ==> Conflicts(q.bookings[conflict.value.id], demand))
  {
    if conflict.Some? {
      SharedSeatIsConflict(conflict.value, demand, seatIds);
      var bookings := BookingsOf(reservations);
      assert conflict.value.id in bookings && Conflicts(bookings[conflict.value.id], demand);
      hide Conflicts, BookingsOf;
      forall q: State | q.bookings == bookings ensures HasConflict(q, demand) {
        assert conflict.value.id in q.bookings;
      }
    } else {
      forall rid | rid in reservations ensures !Conflicts(BookingOf(reservations[rid]), demand) {
        if reservations[rid].screeningId == screeningId {
          SharedSeatIsConflict(reservations[rid], demand, seatIds);
        }
      }
    }
  }

  predicate HeldBy(metadata: Metadata, item: ClaimedReservationRequest) {
    && metadata.claim.Some?
    && metadata.claim.value.worker == item.claimedBy && metadata.claim.value.token == item.claimToken
  }

  predicate IsExpiredProcessing(request: ReservationRequest, metadata: Metadata, now: int) {
    request.status == PROCESSING && (metadata.claim.None? || metadata.claim.value.expiresAt <= now)
  }
}
