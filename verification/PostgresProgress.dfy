/** Nothing in the Postgres system gets stuck: from every reachable database each transaction can be
    tried, and what it then does is said in terms of the tables. */
module PostgresProgress {
  import opened Domain
  import opened Queue
  import opened Protocol
  import opened ProtocolInvariant
  import opened Postgres
  import opened PostgresViews
  import opened PostgresProtocol

  // ---------- saving ----------

  /** Every well-placed new request for distinct seats can be saved, and then waits with its seats. */
  lemma SaveIsPossible(cfg: Config, p: PgSys, request: ReservationRequest, sequence: nat)
    requires SchemaOk(cfg.catalog, p.db) && request.status.REQUESTED? && request.id !in p.db.requests
    requires NoDuplicates(request.seatIds)
    requires WellPlaced(cfg.catalog, Demand(request.movieProviderId, request.screeningId, SeatSet(request.seatIds),
                                            request.requestedByUserId))
    requires forall id | id in p.db.requests :: p.db.requests[id].sequence != sequence
    ensures PgEnabled(cfg, p, SaveRequest(request, sequence))
    ensures var p' := PgApply(cfg, p, SaveRequest(request, sequence));
            && p'.workers == p.workers
            && p'.db.requests == p.db.requests[request.id := RequestRow(
                 request.movieProviderId, request.screeningId, request.requestedByUserId, REQUESTED, sequence,
                 None, 0, 0)]
            && RequestSeats(p'.db.requestSeats, request.id) == SeatSet(request.seatIds)
            && p'.db.reservations == p.db.reservations && p'.db.reservationSeats == p.db.reservationSeats
            && p'.db.attempts == p.db.attempts
  {
    SaveOutcomes(cfg.catalog, p.db, request, sequence);
    KeysView(p.db);
    SavedSeats(cfg.catalog, p.db, request, sequence);
  }

  // ---------- claiming ----------

  ghost function Candidates(db: Db, input: ClaimInput, skipped: set<RequestId>): set<RequestId> {
    set id | id in db.requests && id !in skipped && Claimable(db.requests[id], input)
  }

  lemma {:induction false} LeastSequence(db: Db, ids: set<RequestId>) returns (least: RequestId)
    requires ids != {} && ids <= db.requests.Keys
    ensures least in ids && forall id | id in ids :: db.requests[least].sequence <= db.requests[id].sequence
    decreases ids
  {
    least :| least in ids;
    if ids != {least} {
      var other := LeastSequence(db, ids - {least});
      if db.requests[other].sequence < db.requests[least].sequence { least := other; }
    }
  }

  /** A worker with a fresh token can always claim, whatever rows are locked. It comes back without a
      ticket when no unlocked row is claimable, or when the least such row was out of lease budget and
      is now FAILED; else it holds the row under its own token and lease. */
  lemma ClaimIsPossible(cfg: Config, p: PgSys, input: ClaimInput, skipped: set<RequestId>)
    returns (found: Option<RequestId>)
    requires input.claimToken !in p.workers
    requires input.maxTransientFailures == cfg.maxTransientFailures && input.maxLeaseTimeouts == cfg.maxLeaseTimeouts
    ensures PgEnabled(cfg, p, ClaimRequest(input, skipped, found))
    ensures found.None? <==>
              forall id | id in p.db.requests && id !in skipped ::
                var row := p.db.requests[id];
                && !(row.status.REQUESTED? && row.transientFailureCount < input.maxTransientFailures)
                && !(row.status.PROCESSING? && (row.claim.None? || row.claim.value.expiresAt <= input.claimedAt))
    ensures var p' := PgApply(cfg, p, ClaimRequest(input, skipped, found));
            && (found.None? ==> p' == p)
            && (found.Some? ==>
                  && found.value in p.db.requests && found.value in p'.db.requests
                  && var row, row' := p.db.requests[found.value], p'.db.requests[found.value];
                  if row.status.PROCESSING? && row.leaseTimeoutCount >= input.maxLeaseTimeouts then
                    row' == row.(status := FAILED, claim := None) && p'.workers == p.workers
                  else
                    && row' == row.(
                         status := PROCESSING,
                         leaseTimeoutCount := row.leaseTimeoutCount + (if row.status.PROCESSING? then 1 else 0),
                         claim := Some(Claim(input.workerId, input.claimToken, input.claimedAt, input.claimExpiresAt,
                                             input.claimedAt)))
                    && input.claimToken in p'.workers && p'.workers[input.claimToken].phase.Looking?
                    && p'.workers[input.claimToken].ticket.id == found.value
                    && p'.workers[input.claimToken].startedAt == input.claimedAt)
  {
    var candidates := Candidates(p.db, input, skipped);
    if candidates == {} {
      found := None;
      assert forall id | id in p.db.requests && id !in skipped :: id !in candidates;
    } else {
      var least := LeastSequence(p.db, candidates);
      found := Some(least);
      forall other | other in p.db.requests && other !in skipped && Claimable(p.db.requests[other], input)
        ensures p.db.requests[least].sequence <= p.db.requests[other].sequence
      {
        assert other in candidates;
      }
    }
  }

  // ---------- the conflict lookup ----------

  ghost function Takers(db: Db, demand: Demand): set<ReservationId> {
    set row | row in db.reservationSeats && row.screeningId == demand.screening && row.seatId in demand.seats ::
      row.reservationId
  }

  lemma {:induction false} LeastKey(rids: set<ReservationId>) returns (least: ReservationId)
    requires rids != {}
    ensures least in rids && forall rid | rid in rids :: least.key <= rid.key
    decreases rids
  {
    least :| least in rids;
    if rids != {least} {
      var other := LeastKey(rids - {least});
      if other.key < least.key { least := other; }
    }
  }

  /** The lookup always answers: with the least reservation that holds one of the seats, if any does. */
  lemma LookupIsPossible(cfg: Config, p: PgSys, token: ClaimToken) returns (found: Option<ReservationId>)
    requires token in p.workers && (p.workers[token].phase.Looking? || p.workers[token].phase.Aborted?)
    ensures PgEnabled(cfg, p, FindConflict(token, found))
    ensures var demand := p.workers[token].ticket.demand;
            && (found.Some? <==> exists row | row in p.db.reservationSeats ::
                  row.screeningId == demand.screening && row.seatId in demand.seats)
            && (found.Some? ==> forall row | row in p.db.reservationSeats && row.screeningId == demand.screening
                                             && row.seatId in demand.seats :: found.value.key <= row.reservationId.key)
    ensures var p' := PgApply(cfg, p, FindConflict(token, found));
            && p'.db == p.db
            && (found.Some? ==> p'.workers[token].phase == Conflicted(found.value))
            && (found.None? && p.workers[token].phase.Looking? ==> p'.workers[token].phase == Clear)
  {
    var demand := p.workers[token].ticket.demand;
    var takers := Takers(p.db, demand);
    if takers == {} {
      found := None;
      forall row | row in p.db.reservationSeats
        ensures !(row.screeningId == demand.screening && row.seatId in demand.seats)
      {
        assert row.screeningId == demand.screening && row.seatId in demand.seats ==> row.reservationId in takers;
      }
    } else {
      var least := LeastKey(takers);
      found := Some(least);
      forall row | row in p.db.reservationSeats && row.screeningId == demand.screening && row.seatId in demand.seats
        ensures least.key <= row.reservationId.key
      {
        assert row.reservationId in takers;
      }
    }
  }

  // ---------- confirm, reject, recover ----------

  lemma {:induction false} SomeListing(seats: set<SeatId>) returns (seatIds: seq<SeatId>)
    ensures NoDuplicates(seatIds) && SeatSet(seatIds) == seats
    decreases seats
  {
    seatIds := [];
    if seats != {} {
      var seat :| seat in seats;
      var rest := SomeListing(seats - {seat});
      assert seat !in rest by { assert seat !in SeatSet(rest); }
      seatIds := rest + [seat];
      forall x ensures x in SeatSet(seatIds) <==> x in seats {
        assert x in seatIds <==> x in rest || x == seat;
        assert x in rest <==> x in SeatSet(rest);
      }
    }
  }

  /** A worker whose lookup found nothing can confirm. Owned, with a new reservation id and no seat row
      in the way, its request is CONFIRMED; with a seat row in the way it is sent to look again, and
      nothing is written; otherwise it is in the catch block, and nothing is written. */
  lemma ConfirmIsPossible(cfg: Config, p: PgSys, token: ClaimToken, rid: ReservationId, confirmedAt: int,
                          completedAt: int) returns (seatIds: seq<SeatId>)
    requires ValidConfig(cfg) && PgReachable(cfg, p)
    requires token in p.workers && p.workers[token].phase.Clear?
    ensures PgEnabled(cfg, p, ConfirmRequest(token, rid, seatIds, confirmedAt, completedAt))
    ensures var p' := PgApply(cfg, p, ConfirmRequest(token, rid, seatIds, confirmedAt, completedAt));
            var ticket := p.workers[token].ticket;
            var taken := HasConflict(View(p.db), ticket.demand);
            && ticket.id in p'.db.requests && token in p'.workers
            && if Owns(View(p.db), ticket) && rid !in p.db.reservations then
                 if taken then p'.db == p.db && p'.workers[token].phase.Aborted?
                 else
                   && p'.db.requests[ticket.id].status == CONFIRMED && p'.workers[token].phase.Done?
                   && rid in p'.db.reservations
                   && p'.db.reservations[rid] == ReservationRow(ticket.demand.provider, ticket.id,
                        ticket.demand.screening, ticket.demand.user, confirmedAt)
                   && ReservationSeats(p'.db.reservationSeats, rid) == ticket.demand.seats
               else p'.db == p.db && p'.workers[token].phase.Erring?
  {
    var w := p.workers[token];
    seatIds := SomeListing(w.ticket.demand.seats);
    var reservation := ReservationFor(w.ticket, rid, seatIds, confirmedAt);
    var attempt := AttemptBy(w, completedAt, Confirmed(rid));
    ClearWorkerFacts(cfg, p, token, rid);
    hide PgReachable, SchemaOk, WellPlaced, HasConflict, Owns, ConfirmTx;
    ConfirmTxView(cfg.catalog, p.db, w.ticket, reservation, attempt);
    var outcome := ConfirmTx(cfg.catalog, p.db, w.ticket, reservation, attempt);
    if outcome.Committed? { CommittedTables(cfg.catalog, p.db, w.ticket, reservation, attempt, outcome.db); }
    hide View;
  }

  lemma ClearWorkerFacts(cfg: Config, p: PgSys, token: ClaimToken, rid: ReservationId)
    requires ValidConfig(cfg) && PgReachable(cfg, p) && token in p.workers
    ensures SchemaOk(cfg.catalog, p.db)
    ensures var ticket := p.workers[token].ticket;
            && ticket.id in p.db.requests && ticket.id in View(p.db).rows
            && View(p.db).rows[ticket.id].demand == ticket.demand && WellPlaced(cfg.catalog, ticket.demand)
            && (Owns(View(p.db), ticket) ==>
                  forall r | r in View(p.db).bookings :: View(p.db).bookings[r].requestId != ticket.id)
    ensures View(p.db).bookings.Keys == p.db.reservations.Keys
  {
    PgReachableIsReachable(cfg, p);
    var s := Abs(p);
    ReachableInv(cfg, s);
    assert WorkerOk(s, token);
    ReachableRow(cfg, s, p.workers[token].ticket.id);
    KeysView(p.db);
    hide PgReachable, Reachable, SchemaOk, RowsView, BookingsView, LogView;
    if Owns(s.q, p.workers[token].ticket) {
      forall r | r in s.q.bookings ensures s.q.bookings[r].requestId != p.workers[token].ticket.id {
        ReachableBooking(cfg, s, r);
      }
    }
  }

  lemma CommittedTables(catalog: Catalog, db: Db, ticket: Ticket, reservation: Reservation, attempt: Attempt, db': Db)
    requires SchemaOk(catalog, db) && ConfirmTx(catalog, db, ticket, reservation, attempt) == Committed(db')
    ensures ticket.id in db.requests && db'.requests.Keys == db.requests.Keys
    ensures db'.requests[ticket.id].status == CONFIRMED
    ensures db'.reservations == db.reservations[reservation.id := ReservationRow(
              reservation.movieProviderId, reservation.reservationRequestId, reservation.screeningId,
              reservation.reservedByUserId, reservation.confirmedAt)]
    ensures ReservationSeats(db'.reservationSeats, reservation.id) == SeatSet(reservation.seatIds)
  {
    var auditoriumId := catalog.screenings[reservation.screeningId].auditoriumId;
    InsertExactly(db.reservationSeats, reservation, auditoriumId, reservation.seatIds);
    ReservationInserted(db.reservations, db.reservationSeats, reservation, auditoriumId,
                        db'.reservations[reservation.id]);
    assert reservation.id in BookingsView(db'.reservations, db'.reservationSeats);
  }

  /** A worker whose lookup named a reservation can reject: owned, its request is REJECTED for it. */
  lemma RejectIsPossible(cfg: Config, p: PgSys, token: ClaimToken, completedAt: int)
    requires ValidConfig(cfg) && PgReachable(cfg, p) && token in p.workers && p.workers[token].phase.Conflicted?
    ensures PgEnabled(cfg, p, RejectRequest(token, completedAt))
    ensures var p' := PgApply(cfg, p, RejectRequest(token, completedAt));
            var w := p.workers[token];
            && w.ticket.id in p'.db.requests && token in p'.workers
            && if Owns(View(p.db), w.ticket) then
                 && p'.db.requests[w.ticket.id].status == REJECTED && p'.workers[token].phase.Done?
                 && p'.db.attempts == p.db.attempts + [AttemptRow(
                      w.ticket.id, w.ticket.sequence, w.startedAt, completedAt, "rejected", Some("seat-conflict"), None,
                      Some(w.phase.conflict))]
               else p'.db == p.db && p'.workers[token].phase.Erring?
  {
    var w := p.workers[token];
    WorkerTables(cfg, p, token);
    hide PgReachable, View, Owns;
  }

  /** A worker in the catch block can settle its item: owned, one failure more, released or failed. */
  lemma RecoveryIsPossible(cfg: Config, p: PgSys, token: ClaimToken, completedAt: int)
    requires ValidConfig(cfg) && PgReachable(cfg, p) && token in p.workers && p.workers[token].phase.Erring?
    ensures PgEnabled(cfg, p, HandleFailure(token, completedAt))
    ensures var p' := PgApply(cfg, p, HandleFailure(token, completedAt));
            var ticket := p.workers[token].ticket;
            && token in p'.workers && p'.workers[token].phase.Done?
            && ticket.id in p.db.requests && ticket.id in p'.db.requests
            && if Owns(View(p.db), ticket) then
                 var row, row' := p.db.requests[ticket.id], p'.db.requests[ticket.id];
                 row' == row.(
                   status := if row.transientFailureCount + 1 < cfg.maxTransientFailures then REQUESTED else FAILED,
                   claim := None, transientFailureCount := row.transientFailureCount + 1)
               else p'.db == p.db
  {
    WorkerTables(cfg, p, token);
    hide PgReachable, View, Owns, FromAttempt;
  }

  /** What the tables say about a worker's ticket. */
  lemma WorkerTables(cfg: Config, p: PgSys, token: ClaimToken)
    requires ValidConfig(cfg) && PgReachable(cfg, p) && token in p.workers
    ensures var w := p.workers[token];
            && w.ticket.id in p.db.requests
            && (w.phase.Conflicted? ==> w.phase.conflict in p.db.reservations)
            && (Owns(View(p.db), w.ticket) <==> RequireClaimedProcessingRequest(p.db, w.ticket))
            && (Owns(View(p.db), w.ticket) ==>
                  w.ticket.transientFailures == p.db.requests[w.ticket.id].transientFailureCount)
  {
    var ticket := p.workers[token].ticket;
    PgReachableIsReachable(cfg, p);
    OwnsView(p.db, ticket);
    KeysView(p.db);
    hide PgReachable, Reachable, SchemaOk, RequireClaimedProcessingRequest, RowOk;
    ReachableInv(cfg, Abs(p));
    assert WorkerOk(Abs(p), token);
    hide Inv, WorkersOk;
    if Owns(View(p.db), ticket) {
      ReachableRow(cfg, Abs(p), ticket.id);
      OwnedCounts(cfg, Abs(p), token);
      assert View(p.db).rows[ticket.id] == AsRow(p.db.requests[ticket.id], RequestSeats(p.db.requestSeats, ticket.id));
    }
  }

  lemma OwnedCounts(cfg: Config, s: Sys, token: ClaimToken)
    requires token in s.workers && WorkerOk(s, token) && Owns(s.q, s.workers[token].ticket)
    requires RowOk(cfg, s, s.workers[token].ticket.id)
    ensures s.workers[token].ticket.transientFailures == s.q.rows[s.workers[token].ticket.id].transientFailures
  {
  }

  /** A confirm stopped by the seat constraint, its lookup and its rejection, one after the other: the
      request ends REJECTED for a reservation that holds one of its seats. */
  lemma SeatConstraintEndsInRejection(cfg: Config, p: PgSys, token: ClaimToken, rid: ReservationId, confirmedAt: int,
                                      completedAt: int) returns (seatIds: seq<SeatId>, found: ReservationId)
    requires ValidConfig(cfg) && PgReachable(cfg, p)
    requires token in p.workers && p.workers[token].phase.Clear? && Owns(View(p.db), p.workers[token].ticket)
    requires rid !in p.db.reservations && HasConflict(View(p.db), p.workers[token].ticket.demand)
    ensures var confirm := ConfirmRequest(token, rid, seatIds, confirmedAt, completedAt);
            && PgEnabled(cfg, p, confirm)
            && var aborted := PgApply(cfg, p, confirm);
            && PgEnabled(cfg, aborted, FindConflict(token, Some(found)))
            && var conflicted := PgApply(cfg, aborted, FindConflict(token, Some(found)));
            && PgEnabled(cfg, conflicted, RejectRequest(token, completedAt))
            && var done := PgApply(cfg, conflicted, RejectRequest(token, completedAt));
            && p.workers[token].ticket.id in done.db.requests
            && done.db.requests[p.workers[token].ticket.id].status == REJECTED
            && done.workers[token].phase.Done?
  {
    var ticket := p.workers[token].ticket;
    seatIds := ConfirmIsPossible(cfg, p, token, rid, confirmedAt, completedAt);
    var confirm := ConfirmRequest(token, rid, seatIds, confirmedAt, completedAt);
    var aborted := PgApply(cfg, p, confirm);
    PgStepReaches(cfg, p, confirm);
    var answer := LookupIsPossible(cfg, aborted, token);
    FollowUpLookupFinds(cfg, aborted, token, answer);
    found := answer.value;
    PgStepReaches(cfg, aborted, FindConflict(token, answer));
    var conflicted := PgApply(cfg, aborted, FindConflict(token, answer));
    hide PgReachable, View, Owns, HasConflict, LookupQuery;
    RejectIsPossible(cfg, conflicted, token, completedAt);
  }

  lemma PgStepReaches(cfg: Config, p: PgSys, a: PgAction)
    requires PgReachable(cfg, p) && PgEnabled(cfg, p, a)
    ensures PgReachable(cfg, PgApply(cfg, p, a))
  {
    hide PgEnabled, PgApply, Init, SchemaOk;
    var trace: seq<PgSys>, acts: seq<PgAction>, i: nat :| PgRun(cfg, trace, acts) && i < |trace| && trace[i] == p;
    var p' := PgApply(cfg, p, a);
    var longer, steps := trace[..i] + [p, p'], acts[..i] + [a];
    forall k | 0 <= k < |steps|
      ensures PgEnabled(cfg, longer[k], steps[k]) && longer[k + 1] == PgApply(cfg, longer[k], steps[k])
    {
      if k < i { assert steps[k] == acts[k] && longer[k] == trace[k] && longer[k + 1] == trace[k + 1]; }
    }
    assert PgRun(cfg, longer, steps);
    assert longer[i + 1] == p';
  }

  /** A worker can always send a heartbeat, also after it is done; it renews the lease if and only if the
      row is PROCESSING under its worker and token. A call can throw, and a pass end, at any point. */
  lemma OtherStepsArePossible(cfg: Config, p: PgSys, token: ClaimToken, at: int, expiresAt: int)
    requires token in p.workers
    ensures PgEnabled(cfg, p, HeartbeatRequest(token, at, expiresAt))
    ensures var p' := PgApply(cfg, p, HeartbeatRequest(token, at, expiresAt));
            var ticket := p.workers[token].ticket;
            var held := ticket.id in p.db.requests && p.db.requests[ticket.id].status.PROCESSING?
                        && p.db.requests[ticket.id].claim.Some?
                        && p.db.requests[ticket.id].claim.value.worker == ticket.worker
                        && p.db.requests[ticket.id].claim.value.token == ticket.token;
            && p'.workers == p.workers
            && (!held ==> p' == p)
            && (held ==> p'.db == p.db.(requests := p.db.requests[ticket.id := p.db.requests[ticket.id].(claim := Some(
                  Claim(ticket.worker, ticket.token, p.db.requests[ticket.id].claim.value.claimedAt, expiresAt, at)))]))
    ensures !p.workers[token].phase.Done? ==>
              && PgEnabled(cfg, p, DependencyThrows(token))
              && var p' := PgApply(cfg, p, DependencyThrows(token));
              p'.db == p.db && p'.workers[token].phase.Erring?
    ensures PgEnabled(cfg, p, Ends(token)) && PgApply(cfg, p, Ends(token)).workers[token].phase.Done?
  {
  }
}
