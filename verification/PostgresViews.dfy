/** What each transaction does to the queue its tables stand for. */
module PostgresViews {
  import opened Domain
  import opened Queue
  import opened Protocol
  import opened Postgres

  // ---------- views of writes ----------

  lemma RequestWritten(requests: map<RequestId, RequestRow>, seats: set<RequestSeatRow>, id: RequestId, row: RequestRow)
    ensures RowsView(requests[id := row], seats) == RowsView(requests, seats)[id := AsRow(row, RequestSeats(seats, id))]
  {
  }

  lemma AttemptAppended(attempts: seq<AttemptRow>, a: Attempt)
    ensures LogView(attempts + [FromAttempt(a)]) == Append(LogView(attempts), a)
  {
    AttemptRoundTrip(a);
    RowAppended(attempts, FromAttempt(a), a);
  }

  lemma RowAppended(attempts: seq<AttemptRow>, row: AttemptRow, a: Attempt)
    requires ToAttempt(row) == Some(a) && row.requestId == a.requestId
    ensures LogView(attempts + [row]) == Append(LogView(attempts), a)
  {
    hide ToAttempt;
    LogKeysAppended(attempts, row);
    var log, log' := LogView(attempts), LogView(attempts + [row]);
    assert (attempts + [row])[..|attempts|] == attempts;
    assert forall id ::
        AttemptsOf(attempts + [row], id) == AttemptsOf(attempts, id) + if a.requestId == id then [a] else [];
    if a.requestId !in log { NoAttempts(attempts, a.requestId); }
    assert log'.Keys == Append(log, a).Keys;
    forall id | id in log' ensures log'[id] == Append(log, a)[id] {
      assert id in log || id == a.requestId;
    }
  }

  lemma LogKeysAppended(attempts: seq<AttemptRow>, row: AttemptRow)
    ensures LogView(attempts + [row]).Keys == LogView(attempts).Keys + {row.requestId}
  {
    var attempts' := attempts + [row];
    forall id ensures id in LogView(attempts') <==> id in LogView(attempts) || id == row.requestId {
      if id in LogView(attempts) {
        var other :| other in attempts && other.requestId == id;
        assert other in attempts';
      }
      if id == row.requestId { assert row in attempts'; }
    }
  }

  lemma {:induction false} NoAttempts(attempts: seq<AttemptRow>, id: RequestId)
    requires forall row | row in attempts :: row.requestId != id
    ensures AttemptsOf(attempts, id) == []
  {
    if attempts != [] {
      NoAttempts(attempts[..|attempts| - 1], id);
    }
  }

  /** The seat rows a reservation gets. */
  function SeatRowsOf(reservation: Reservation, auditoriumId: AuditoriumId, seatIds: seq<SeatId>)
    : set<ReservationSeatRow>
  {
    set seatId | seatId in seatIds ::
      ReservationSeatRow(reservation.id, reservation.movieProviderId, reservation.screeningId, auditoriumId, seatId)
  }

  ghost predicate HasSeatRow(rows: set<ReservationSeatRow>, screeningId: ScreeningId, seatId: SeatId) {
    exists row | row in rows :: row.screeningId == screeningId && row.seatId == seatId
  }

  ghost predicate HasOwnRow(rows: set<ReservationSeatRow>, rid: ReservationId, seatId: SeatId) {
    exists row | row in rows :: row.reservationId == rid && row.seatId == seatId
  }

  ghost predicate FreeFor(rows: set<ReservationSeatRow>, reservation: Reservation, seatId: SeatId) {
    !HasSeatRow(rows, reservation.screeningId, seatId) && !HasOwnRow(rows, reservation.id, seatId)
  }

  /** Seat `k` is the first that cannot be inserted, and only because somebody else has it. */
  ghost predicate FirstTaken(rows: set<ReservationSeatRow>, reservation: Reservation, seatIds: seq<SeatId>, k: int) {
    && 0 <= k < |seatIds| && NoDuplicates(seatIds[..k + 1])
    && (forall i | 0 <= i < k :: FreeFor(rows, reservation, seatIds[i]))
    && HasSeatRow(rows, reservation.screeningId, seatIds[k]) && !HasOwnRow(rows, reservation.id, seatIds[k])
  }

  lemma SeatRowAdded(rows: set<ReservationSeatRow>, added: ReservationSeatRow, reservation: Reservation)
    requires added.reservationId == reservation.id && added.screeningId == reservation.screeningId
    ensures forall seatId ::
              && (HasSeatRow(rows + {added}, reservation.screeningId, seatId)
                  <==> HasSeatRow(rows, reservation.screeningId, seatId) || seatId == added.seatId)
              && (HasOwnRow(rows + {added}, reservation.id, seatId)
                  <==> HasOwnRow(rows, reservation.id, seatId) || seatId == added.seatId)
  {
    forall seatId
      ensures HasSeatRow(rows, reservation.screeningId, seatId) || seatId == added.seatId ==>
                HasSeatRow(rows + {added}, reservation.screeningId, seatId)
      ensures HasOwnRow(rows, reservation.id, seatId) || seatId == added.seatId ==>
                HasOwnRow(rows + {added}, reservation.id, seatId)
    {
      assert added in rows + {added} && forall row | row in rows :: row in rows + {added};
    }
  }

  /** The insert succeeds exactly when no listed seat repeats or is taken, and then adds one row per
      seat; it fails on the seat constraint exactly when that is what stops the first seat it stops at. */
  lemma {:induction false} InsertExactly(rows: set<ReservationSeatRow>, reservation: Reservation,
                                         auditoriumId: AuditoriumId, seatIds: seq<SeatId>)
    ensures var inserted := InsertSeatRows(rows, reservation, auditoriumId, seatIds);
            && (inserted.Ok? <==>
                  NoDuplicates(seatIds) && forall seatId | seatId in seatIds :: FreeFor(rows, reservation, seatId))
            && (inserted.Ok? ==> inserted.value == rows + SeatRowsOf(reservation, auditoriumId, seatIds))
            && (inserted == Err(SeatTaken) <==> exists k :: FirstTaken(rows, reservation, seatIds, k))
    decreases seatIds
  {
    if seatIds == [] {
      assert SeatRowsOf(reservation, auditoriumId, seatIds) == {};
    } else {
      var first, rest := seatIds[0], seatIds[1..];
      var added := ReservationSeatRow(reservation.id, reservation.movieProviderId, reservation.screeningId,
                                      auditoriumId, first);
      if FreeFor(rows, reservation, first) {
        InsertExactly(rows + {added}, reservation, auditoriumId, rest);
        SeatRowAdded(rows, added, reservation);
        FreeShifts(rows, rows + {added}, reservation, seatIds);
        assert rows + {added} + SeatRowsOf(reservation, auditoriumId, rest)
            == rows + SeatRowsOf(reservation, auditoriumId, seatIds);
      } else {
        assert first in seatIds;
        if !HasOwnRow(rows, reservation.id, first) { assert FirstTaken(rows, reservation, seatIds, 0); }
      }
    }
  }

  /** What is asked of the tail, with the first seat's row added, is what is asked of the whole list. */
  lemma FreeShifts(rows: set<ReservationSeatRow>, rows': set<ReservationSeatRow>, reservation: Reservation,
                   seatIds: seq<SeatId>)
    requires seatIds != [] && FreeFor(rows, reservation, seatIds[0])
    requires forall seatId ::
               && (HasSeatRow(rows', reservation.screeningId, seatId)
                   <==> HasSeatRow(rows, reservation.screeningId, seatId) || seatId == seatIds[0])
               && (HasOwnRow(rows', reservation.id, seatId)
                   <==> HasOwnRow(rows, reservation.id, seatId) || seatId == seatIds[0])
    ensures (NoDuplicates(seatIds[1..]) && forall seatId | seatId in seatIds[1..] ::
             FreeFor(rows', reservation, seatId))
       <==> (NoDuplicates(seatIds) && forall seatId | seatId in seatIds :: FreeFor(rows, reservation, seatId))
    ensures (exists k :: FirstTaken(rows', reservation, seatIds[1..], k))
        <==> exists k :: FirstTaken(rows, reservation, seatIds, k)
  {
    var first, rest := seatIds[0], seatIds[1..];
    hide HasSeatRow, HasOwnRow;
    assert forall seatId :: seatId in seatIds <==> seatId == first || seatId in rest;
    assert forall seatId ::
        FreeFor(rows', reservation, seatId) <==> FreeFor(rows, reservation, seatId) && seatId != first;
    forall k: int
      ensures FirstTaken(rows', reservation, rest, k) <==> FirstTaken(rows, reservation, seatIds, k + 1) && k >= 0
    {
      FirstTakenShifts(rows, rows', reservation, seatIds, k);
    }
    if k :| FirstTaken(rows, reservation, seatIds, k) {
      assert k > 0;
      assert FirstTaken(rows', reservation, rest, k - 1);
    }
    if k :| FirstTaken(rows', reservation, rest, k) {
      assert FirstTaken(rows, reservation, seatIds, k + 1);
    }
    DistinctTail(seatIds);
  }

  lemma DistinctTail(seatIds: seq<SeatId>)
    requires seatIds != []
    ensures NoDuplicates(seatIds) <==> NoDuplicates(seatIds[1..]) && seatIds[0] !in seatIds[1..]
  {
    var rest := seatIds[1..];
    if NoDuplicates(rest) && seatIds[0] !in rest {
      forall i, j | 0 <= i < j < |seatIds| ensures seatIds[i] != seatIds[j] {
        assert seatIds[j] == rest[j - 1] && (i > 0 ==> seatIds[i] == rest[i - 1]);
      }
    }
  }

  lemma TailOfPrefix(seatIds: seq<SeatId>, k: int)
    requires 0 <= k < |seatIds| - 1
    ensures seatIds[..k + 2][1..] == seatIds[1..][..k + 1] && seatIds[1..][k] == seatIds[k + 1]
  {
  }

  lemma FirstTakenShifts(rows: set<ReservationSeatRow>, rows': set<ReservationSeatRow>, reservation: Reservation,
                         seatIds: seq<SeatId>, k: int)
    requires seatIds != [] && FreeFor(rows, reservation, seatIds[0])
    requires forall seatId ::
               && (HasSeatRow(rows', reservation.screeningId, seatId)
                   <==> HasSeatRow(rows, reservation.screeningId, seatId) || seatId == seatIds[0])
               && (HasOwnRow(rows', reservation.id, seatId)
                   <==> HasOwnRow(rows, reservation.id, seatId) || seatId == seatIds[0])
    ensures FirstTaken(rows', reservation, seatIds[1..], k) <==> FirstTaken(rows, reservation, seatIds, k + 1) && k >= 0
  {
    hide HasSeatRow, HasOwnRow;
    var first, rest := seatIds[0], seatIds[1..];
    if 0 <= k < |rest| {
      TailOfPrefix(seatIds, k);
      DistinctTail(seatIds[..k + 2]);
      assert rest[k] in rest[..k + 1] by { assert rest[..k + 1][k] == rest[k]; }
      assert (forall i | 0 <= i < k :: rest[i] != first) && rest[k] != first <==> first !in rest[..k + 1] by {
        if first in rest[..k + 1] { var i :| 0 <= i <= k && rest[..k + 1][i] == first; assert rest[i] == first; }
        assert forall i | 0 <= i <= k :: rest[..k + 1][i] == rest[i];
      }
      assert forall i | 0 <= i < k :: seatIds[i + 1] == rest[i];
    }
  }

  lemma ReservationInserted(reservations: map<ReservationId, ReservationRow>, rows: set<ReservationSeatRow>,
                            reservation: Reservation, auditoriumId: AuditoriumId, row: ReservationRow)
    requires forall r | r in rows :: r.reservationId != reservation.id
    ensures BookingsView(reservations[reservation.id := row],
                         rows + SeatRowsOf(reservation, auditoriumId, reservation.seatIds))
         == BookingsView(reservations, rows)[reservation.id := AsBooking(row, SeatSet(reservation.seatIds))]
  {
    var rows' := rows + SeatRowsOf(reservation, auditoriumId, reservation.seatIds);
    forall seatId ensures seatId in ReservationSeats(rows', reservation.id)
        <==> seatId in SeatSet(reservation.seatIds)
    {
      if seatId in SeatSet(reservation.seatIds) {
        assert ReservationSeatRow(reservation.id, reservation.movieProviderId, reservation.screeningId,
                                  auditoriumId, seatId) in rows';
      }
    }
    assert ReservationSeats(rows', reservation.id) == SeatSet(reservation.seatIds);
    forall rid | rid != reservation.id ensures ReservationSeats(rows', rid) == ReservationSeats(rows, rid) {}
  }

  // ---------- queries ----------

  /** The claim query's where clause is the in-memory scan's skip rule. */
  lemma ClaimQueryFindsHead(db: Db, input: ClaimInput, skipped: set<RequestId>, found: Option<RequestId>)
    requires ClaimQuery(db, input, skipped, found)
    ensures found.None? ==> NothingEligible(View(db), input, skipped)
    ensures found.Some? ==> IsHead(View(db), found.value, input, skipped)
  {
    assert forall id | id in db.requests :: Claimable(db.requests[id], input) <==> Eligible(View(db).rows[id], input);
  }

  lemma SeatRowIsBookedSeat(catalog: Catalog, db: Db, screeningId: ScreeningId, seatId: SeatId, rid: ReservationId)
    requires SchemaOk(catalog, db)
    ensures (exists row | row in db.reservationSeats ::
               row.screeningId == screeningId && row.seatId == seatId && row.reservationId == rid)
       <==> rid in View(db).bookings && View(db).bookings[rid].demand.screening == screeningId
            && seatId in View(db).bookings[rid].demand.seats
  {
    if rid in View(db).bookings && View(db).bookings[rid].demand.screening == screeningId
       && seatId in View(db).bookings[rid].demand.seats {
      var row :| row in db.reservationSeats && row.reservationId == rid && row.seatId == seatId;
      assert row.screeningId == screeningId;
    }
  }

  /** The conflict lookup finds a conflicting reservation exactly when there is one. */
  lemma LookupFindsConflict(catalog: Catalog, db: Db, demand: Demand, found: Option<ReservationId>)
    requires SchemaOk(catalog, db) && LookupQuery(db, demand.screening, demand.seats, found)
    ensures found.None? ==> !HasConflict(View(db), demand)
    ensures found.Some? ==>
              found.value in View(db).bookings && Conflicts(View(db).bookings[found.value], demand)
  {
    if found.Some? {
      var row :| row in db.reservationSeats
                 && row.screeningId == demand.screening && row.seatId in demand.seats
                     && row.reservationId == found.value;
      SeatRowIsBookedSeat(catalog, db, demand.screening, row.seatId, found.value);
      assert row.seatId in View(db).bookings[found.value].demand.seats * demand.seats;
    } else {
      TakenMeansConflict(catalog, db, demand);
    }
  }

  /** The unique constraint alone keeps the reservations of a screening disjoint. */
  lemma SchemaKeepsSeatsDisjoint(catalog: Catalog, db: Db)
    requires SchemaOk(catalog, db)
    ensures Disjoint(View(db))
  {
    forall a, b | a in View(db).bookings && b in View(db).bookings && a != b
      ensures !Conflicts(View(db).bookings[a], View(db).bookings[b].demand)
    {
      if Conflicts(View(db).bookings[a], View(db).bookings[b].demand) {
        var seatId :| seatId in View(db).bookings[a].demand.seats * View(db).bookings[b].demand.seats;
        SeatRowIsBookedSeat(catalog, db, View(db).bookings[a].demand.screening, seatId, a);
        SeatRowIsBookedSeat(catalog, db, View(db).bookings[a].demand.screening, seatId, b);
        assert false;
      }
    }
  }

  // ---------- transactions ----------

  lemma ClaimTxView(db: Db, input: ClaimInput, id: RequestId)
    requires id in db.requests && Claimable(db.requests[id], input)
    ensures var (db', ticket) := ClaimTx(db, input, id);
            && View(db') == ClaimHead(View(db), id, input)
            && (ticket.None? <==> LeaseBudgetSpent(View(db).rows[id], input))
            && (ticket.Some? ==> ticket.value == TicketFor(id, View(db).rows[id], input))
  {
    hide View, ClaimHead, TicketFor;
    if ClaimTx(db, input, id).1.None? { TimedOutTxView(db, input, id); } else { ClaimedTxView(db, input, id); }
  }

  lemma TimedOutTxView(db: Db, input: ClaimInput, id: RequestId)
    requires id in db.requests && Claimable(db.requests[id], input) && ClaimTx(db, input, id).1.None?
    ensures View(ClaimTx(db, input, id).0) == ClaimHead(View(db), id, input)
    ensures LeaseBudgetSpent(View(db).rows[id], input)
  {
    hide FromAttempt, RequestSeats, LogView, BookingsView, HasConflict, SeatsOf;
    var row := db.requests[id];
    assert View(db).rows[id] == AsRow(row, RequestSeats(db.requestSeats, id));
    RequestWritten(db.requests, db.requestSeats, id, row.(status := FAILED, claim := None));
    AttemptAppended(db.attempts, Attempt(id, row.sequence, input.claimedAt, input.claimedAt, LeaseTimeout));
    hide RowsView, Append;
  }

  lemma ClaimedTxView(db: Db, input: ClaimInput, id: RequestId)
    requires id in db.requests && Claimable(db.requests[id], input) && ClaimTx(db, input, id).1.Some?
    ensures View(ClaimTx(db, input, id).0) == ClaimHead(View(db), id, input)
    ensures !LeaseBudgetSpent(View(db).rows[id], input)
    ensures ClaimTx(db, input, id).1.value == TicketFor(id, View(db).rows[id], input)
  {
    hide RequestSeats, LogView, BookingsView, HasConflict, SeatsOf;
    assert View(db).rows[id] == AsRow(db.requests[id], RequestSeats(db.requestSeats, id));
    RequestWritten(db.requests, db.requestSeats, id, ClaimTx(db, input, id).0.requests[id]);
    hide RowsView;
  }

  lemma HeartbeatTxView(db: Db, ticket: Ticket, at: int, expiresAt: int)
    ensures var (db', renewed) := HeartbeatTx(db, ticket, at, expiresAt);
            && View(db') == Heartbeat(View(db), ticket, at, expiresAt)
            && (renewed <==> Holds(View(db), ticket))
  {
    var (db', renewed) := HeartbeatTx(db, ticket, at, expiresAt);
    if renewed {
      RequestWritten(db.requests, db.requestSeats, ticket.id, db'.requests[ticket.id]);
    }
  }

  lemma SettleTxView(db: Db, ticket: Ticket, status: Status, bump: bool, attempt: Attempt)
    requires AttemptFits(db.requests, db.reservations, attempt)
    ensures var settled := SettleTx(db, ticket, status, bump, attempt);
            && (settled.Some? <==> Owns(View(db), ticket))
            && (settled.Some? ==> View(settled.value) == Settle(View(db), ticket.id, status, bump, attempt))
  {
    OwnsView(db, ticket);
    var settled := SettleTx(db, ticket, status, bump, attempt);
    if settled.Some? {
      assert View(db).rows[ticket.id] == AsRow(db.requests[ticket.id], RequestSeats(db.requestSeats, ticket.id));
      RequestWritten(db.requests, db.requestSeats, ticket.id, settled.value.requests[ticket.id]);
      AttemptAppended(db.attempts, attempt);
    }
    hide RowsView, BookingsView, LogView, Append, RequestSeats, FromAttempt, Owns, RequireClaimedProcessingRequest;
  }

  lemma SaveTxView(catalog: Catalog, db: Db, request: ReservationRequest, sequence: nat)
    requires SchemaOk(catalog, db) && SaveTx(catalog, db, request, sequence).Saved? && request.status.REQUESTED?
    ensures var demand := Demand(request.movieProviderId, request.screeningId, SeatSet(request.seatIds),
                                 request.requestedByUserId);
            && View(SaveTx(catalog, db, request, sequence).db) == Enqueue(View(db), request.id, demand, sequence)
            && request.id !in View(db).rows
            && (request.seatIds != [] ==> WellPlaced(catalog, demand))
  {
    if request.seatIds != [] { SavedDemandFits(catalog, db, request, sequence); }
    SavedRows(catalog, db, request, sequence);
    hide RowsView, SchemaOk, WellPlaced, BookingsView, LogView, NewSeatRowsFit, ScreeningFits, RequestSeats;
  }

  /** Exactly when a save succeeds, and what its refusals mean. */
  lemma SaveOutcomes(catalog: Catalog, db: Db, request: ReservationRequest, sequence: nat)
    ensures var outcome := SaveTx(catalog, db, request, sequence);
            var owned := request.screeningId in catalog.screenings
                         && catalog.screenings[request.screeningId].movieProviderId == request.movieProviderId;
            && (outcome.Saved? <==>
                  && owned && request.id !in View(db).rows && NoDuplicates(request.seatIds)
                  && SeatSet(request.seatIds) <= SeatsOf(catalog, request.screeningId))
            && (outcome.DuplicateId? <==> owned && request.id in View(db).rows)
  {
    KeysView(db);
    hide View;
    if ScreeningFits(catalog, request.screeningId, request.movieProviderId) {
      var auditoriumId := catalog.screenings[request.screeningId].auditoriumId;
      assert SeatSet(request.seatIds) <= SeatsOf(catalog, request.screeningId)
        <==> forall seatId | seatId in request.seatIds ::
               SeatFits(catalog, request.movieProviderId, request.screeningId, auditoriumId, seatId) by {
        assert forall seatId :: seatId in SeatSet(request.seatIds) <==> seatId in request.seatIds;
      }
    }
  }

  lemma SavedDemandFits(catalog: Catalog, db: Db, request: ReservationRequest, sequence: nat)
    requires SaveTx(catalog, db, request, sequence).Saved? && request.seatIds != []
    ensures WellPlaced(catalog, Demand(request.movieProviderId, request.screeningId, SeatSet(request.seatIds),
                                       request.requestedByUserId))
  {
    assert request.seatIds[0] in SeatSet(request.seatIds);
  }

  lemma SavedRows(catalog: Catalog, db: Db, request: ReservationRequest, sequence: nat)
    requires RequestSeatsFit(catalog, db.requests, db.requestSeats) && SaveTx(catalog, db, request, sequence).Saved?
    ensures var db' := SaveTx(catalog, db, request, sequence).db;
            var demand := Demand(request.movieProviderId, request.screeningId, SeatSet(request.seatIds),
                                 request.requestedByUserId);
            && RowsView(db'.requests, db'.requestSeats)
               == RowsView(db.requests, db.requestSeats)[
                    request.id := Row(demand, request.status, sequence, 0, 0, None)]
            && request.id !in RowsView(db.requests, db.requestSeats)
  {
    SavedSeats(catalog, db, request, sequence);
    hide RequestSeats, RequestSeatsFit, SeatSet, NewSeatRowsFit, ScreeningFits;
  }

  lemma SavedSeats(catalog: Catalog, db: Db, request: ReservationRequest, sequence: nat)
    requires RequestSeatsFit(catalog, db.requests, db.requestSeats) && SaveTx(catalog, db, request, sequence).Saved?
    ensures var db' := SaveTx(catalog, db, request, sequence).db;
            && RequestSeats(db'.requestSeats, request.id) == SeatSet(request.seatIds)
            && forall id | id in db.requests :: RequestSeats(db'.requestSeats, id) == RequestSeats(db.requestSeats, id)
  {
    var db' := SaveTx(catalog, db, request, sequence).db;
    var auditoriumId := catalog.screenings[request.screeningId].auditoriumId;
    forall seatId ensures seatId in RequestSeats(db'.requestSeats, request.id) <==> seatId in SeatSet(request.seatIds) {
      if seatId in SeatSet(request.seatIds) {
        assert RequestSeatRow(request.id, request.movieProviderId, request.screeningId, auditoriumId, seatId)
            in db'.requestSeats;
      }
    }
    assert RequestSeats(db'.requestSeats, request.id) == SeatSet(request.seatIds);
    forall id | id in db.requests ensures RequestSeats(db'.requestSeats, id) == RequestSeats(db.requestSeats, id) {}
  }

  // ---------- confirm ----------

  /** The reservation row: new, and for a request of the same provider and screening that has none. */
  ghost predicate RowFits(catalog: Catalog, q: State, reservation: Reservation) {
    && ScreeningFits(catalog, reservation.screeningId, reservation.movieProviderId)
    && reservation.id !in q.bookings && reservation.reservationRequestId in q.rows
    && q.rows[reservation.reservationRequestId].demand.provider == reservation.movieProviderId
    && q.rows[reservation.reservationRequestId].demand.screening == reservation.screeningId
    && forall rid | rid in q.bookings :: q.bookings[rid].requestId != reservation.reservationRequestId
  }

  /** Its seat rows: distinct seats of the screening's auditorium. */
  predicate SeatsFit(catalog: Catalog, reservation: Reservation) {
    NoDuplicates(reservation.seatIds) && SeatSet(reservation.seatIds) <= SeatsOf(catalog, reservation.screeningId)
  }

  /** What an attempt row refers to exists, `rids` being the reservations there are. */
  predicate RefersToKnown(q: State, rids: set<ReservationId>, attempt: Attempt) {
    && attempt.requestId in q.rows
    && (attempt.outcome.Confirmed? ==> attempt.outcome.reservationId in rids)
    && (attempt.outcome.Rejected? ==> attempt.outcome.conflictingReservationId in rids)
  }

  /** Seat `k` of the list is the first that is sold, and no seat before it repeats. */
  ghost predicate FirstSold(q: State, reservation: Reservation, k: int) {
    && 0 <= k < |reservation.seatIds| && NoDuplicates(reservation.seatIds[..k + 1])
    && (forall i | 0 <= i < k :: reservation.seatIds[i] !in SoldIn(q.bookings, reservation.screeningId))
    && reservation.seatIds[k] in SoldIn(q.bookings, reservation.screeningId)
  }

  lemma SeatRowIsSoldSeat(catalog: Catalog, db: Db, screeningId: ScreeningId)
    requires SchemaOk(catalog, db)
    ensures forall seatId ::
              HasSeatRow(db.reservationSeats, screeningId, seatId) <==> seatId in SoldIn(View(db).bookings, screeningId)
  {
    forall seatId
      ensures HasSeatRow(db.reservationSeats, screeningId, seatId) <==> seatId in SoldIn(View(db).bookings, screeningId)
    {
      if HasSeatRow(db.reservationSeats, screeningId, seatId) {
        var row :| row in db.reservationSeats && row.screeningId == screeningId && row.seatId == seatId;
        SeatRowIsBookedSeat(catalog, db, screeningId, seatId, row.reservationId);
      }
      if seatId in SoldIn(View(db).bookings, screeningId) {
        var rid :| rid in View(db).bookings && View(db).bookings[rid].demand.screening == screeningId
                   && seatId in View(db).bookings[rid].demand.seats;
        SeatRowIsBookedSeat(catalog, db, screeningId, seatId, rid);
      }
    }
  }

  lemma RowFitsView(catalog: Catalog, db: Db, reservation: Reservation)
    ensures RowFits(catalog, View(db), reservation)
       <==> (&& ScreeningFits(catalog, reservation.screeningId, reservation.movieProviderId)
             && NewReservationFits(db, reservation))
  {
    hide RequestSeats, ReservationSeats, LogView;
    assert forall rid | rid in db.reservations :: View(db).bookings[rid].requestId == db.reservations[rid].requestId;
  }

  lemma OwnsView(db: Db, ticket: Ticket)
    ensures Owns(View(db), ticket) <==> RequireClaimedProcessingRequest(db, ticket)
  {
  }

  lemma KeysView(db: Db)
    ensures View(db).rows.Keys == db.requests.Keys && View(db).bookings.Keys == db.reservations.Keys
  {
  }

  lemma SeatsFitView(catalog: Catalog, reservation: Reservation)
    requires ScreeningFits(catalog, reservation.screeningId, reservation.movieProviderId)
    ensures SeatSet(reservation.seatIds) <= SeatsOf(catalog, reservation.screeningId)
       <==> forall seatId | seatId in reservation.seatIds ::
              SeatFits(catalog, reservation.movieProviderId, reservation.screeningId,
                       catalog.screenings[reservation.screeningId].auditoriumId, seatId)
  {
    assert forall seatId :: seatId in SeatSet(reservation.seatIds) <==> seatId in reservation.seatIds;
  }

  lemma SeatsInsertedView(catalog: Catalog, db: Db, reservation: Reservation, auditoriumId: AuditoriumId)
    requires SchemaOk(catalog, db) && reservation.id !in db.reservations
    ensures var inserted := InsertSeatRows(db.reservationSeats, reservation, auditoriumId, reservation.seatIds);
            && (inserted.Ok? <==> NoDuplicates(reservation.seatIds) && !HasConflict(View(db), Granted(reservation)))
            && (inserted == Err(SeatTaken) <==> exists k :: FirstSold(View(db), reservation, k))
  {
    InsertExactly(db.reservationSeats, reservation, auditoriumId, reservation.seatIds);
    SeatRowIsSoldSeat(catalog, db, reservation.screeningId);
    TakenMeansConflict(catalog, db, Granted(reservation));
    assert forall seatId :: !HasOwnRow(db.reservationSeats, reservation.id, seatId);
    hide View, SchemaOk, HasConflict, HasSeatRow, HasOwnRow, SoldIn, InsertSeatRows;
    forall k: int ensures FirstTaken(db.reservationSeats, reservation, reservation.seatIds, k)
        <==> FirstSold(View(db), reservation, k)
    {
    }
    assert forall seatId :: seatId in reservation.seatIds <==> seatId in Granted(reservation).seats;
  }

  /** The exact outcome of a confirm, for any ticket, reservation and attempt. */
  lemma ConfirmOutcomes(catalog: Catalog, db: Db, ticket: Ticket, reservation: Reservation, attempt: Attempt)
    requires SchemaOk(catalog, db)
    ensures var outcome, q := ConfirmTx(catalog, db, ticket, reservation, attempt), View(db);
            && (outcome.Committed? <==>
                && Owns(q, ticket) && RowFits(catalog, q, reservation) && SeatsFit(catalog, reservation)
                && !HasConflict(q, Granted(reservation))
                && RefersToKnown(q, q.bookings.Keys + {reservation.id}, attempt))
            && (outcome.SeatConstraint? <==>
                Owns(q, ticket) && RowFits(catalog, q, reservation) && exists k :: FirstSold(q, reservation, k))
  {
    hide View, SchemaOk, Owns, HasConflict, SeatFits, InsertSeatRows, RequireClaimedProcessingRequest,
      SeatsOf, SeatSet, FirstSold, UpdateClaimedRequestStatus, FromAttempt;
    RowFitsView(catalog, db, reservation);
    OwnsView(db, ticket);
    KeysView(db);
    if RowFits(catalog, View(db), reservation) {
      SeatsFitView(catalog, reservation);
      SeatsInsertedView(catalog, db, reservation, catalog.screenings[reservation.screeningId].auditoriumId);
    }
    hide RowFits, NewReservationFits;
  }

  lemma {:induction false} SomeSeatIsFirstSold(q: State, reservation: Reservation, n: nat)
    requires n <= |reservation.seatIds| && NoDuplicates(reservation.seatIds)
    ensures (exists i | 0 <= i < n :: reservation.seatIds[i] in SoldIn(q.bookings, reservation.screeningId))
       ==> exists k :: FirstSold(q, reservation, k)
  {
    if n > 0 {
      SomeSeatIsFirstSold(q, reservation, n - 1);
      if forall i | 0 <= i < n - 1 :: reservation.seatIds[i] !in SoldIn(q.bookings, reservation.screeningId) {
        assert reservation.seatIds[n - 1] in SoldIn(q.bookings, reservation.screeningId) ==>
            FirstSold(q, reservation, n - 1);
      }
    }
  }

  lemma SoldSeatIsConflict(q: State, demand: Demand)
    ensures HasConflict(q, demand)
        <==> exists seatId | seatId in demand.seats :: seatId in SoldIn(q.bookings, demand.screening)
  {
    if HasConflict(q, demand) {
      var rid :| rid in q.bookings && Conflicts(q.bookings[rid], demand);
      var seatId :| seatId in q.bookings[rid].demand.seats * demand.seats;
      assert seatId in demand.seats && seatId in SoldIn(q.bookings, demand.screening);
    }
    if seatId :| seatId in demand.seats && seatId in SoldIn(q.bookings, demand.screening) {
      var rid :| rid in q.bookings && q.bookings[rid].demand.screening == demand.screening
                 && seatId in q.bookings[rid].demand.seats;
      assert seatId in q.bookings[rid].demand.seats * demand.seats;
      assert Conflicts(q.bookings[rid], demand);
    }
  }

  /** For distinct seats, some seat is the first sold one exactly when there is a conflict. */
  lemma FirstSoldMeansConflict(q: State, reservation: Reservation)
    ensures (exists k :: FirstSold(q, reservation, k)) ==> HasConflict(q, Granted(reservation))
    ensures NoDuplicates(reservation.seatIds) && HasConflict(q, Granted(reservation)) ==>
        exists k :: FirstSold(q, reservation, k)
  {
    SoldSeatIsConflict(q, Granted(reservation));
    hide HasConflict, SoldIn;
    if NoDuplicates(reservation.seatIds) { SomeSeatIsFirstSold(q, reservation, |reservation.seatIds|); }
    if k :| FirstSold(q, reservation, k) { assert reservation.seatIds[k] in Granted(reservation).seats; }
    if seatId :| seatId in Granted(reservation).seats && seatId in SoldIn(q.bookings, reservation.screeningId) {
      var i :| 0 <= i < |reservation.seatIds| && reservation.seatIds[i] == seatId;
    }
  }

  /** For the reservation a processor builds from its item, confirm commits exactly when the claim is
      owned, the reservation is new, and no seat is sold; it fails on the seat constraint exactly when
      only the seats stand in the way. */
  lemma ConfirmTxView(catalog: Catalog, db: Db, ticket: Ticket, reservation: Reservation, attempt: Attempt)
    requires SchemaOk(catalog, db) && NoDuplicates(reservation.seatIds)
    requires reservation.reservationRequestId == ticket.id == attempt.requestId
    requires attempt.outcome == Confirmed(reservation.id)
    requires WellPlaced(catalog, Granted(reservation))
    requires ticket.id in View(db).rows ==> View(db).rows[ticket.id].demand == Granted(reservation)
    ensures var outcome, q := ConfirmTx(catalog, db, ticket, reservation, attempt), View(db);
            var ready := && Owns(q, ticket) && reservation.id !in q.bookings
                         && forall rid | rid in q.bookings :: q.bookings[rid].requestId != ticket.id;
            && (outcome.Committed? <==> ready && !HasConflict(q, Granted(reservation)))
            && (outcome.SeatConstraint? <==> ready && HasConflict(q, Granted(reservation)))
            && (outcome.Committed? ==>
                  View(outcome.db) == Book(Settle(q, ticket.id, CONFIRMED, false, attempt), reservation.id,
                                           Booking(ticket.id, Granted(reservation), reservation.confirmedAt)))
  {
    ConfirmOutcomes(catalog, db, ticket, reservation, attempt);
    FirstSoldMeansConflict(View(db), reservation);
    if ConfirmTx(catalog, db, ticket, reservation, attempt).Committed? {
      CommitView(catalog, db, ticket, reservation, attempt);
    }
    hide ConfirmTx, View, SchemaOk, HasConflict, FirstSold, SeatsOf, SeatSet;
  }

  lemma CommitView(catalog: Catalog, db: Db, ticket: Ticket, reservation: Reservation, attempt: Attempt)
    requires SchemaOk(catalog, db) && ConfirmTx(catalog, db, ticket, reservation, attempt).Committed?
    ensures ticket.id in View(db).rows
    ensures View(ConfirmTx(catalog, db, ticket, reservation, attempt).db)
         == Book(Settle(View(db), ticket.id, CONFIRMED, false, attempt), reservation.id,
                 Booking(reservation.reservationRequestId, Granted(reservation), reservation.confirmedAt))
  {
    var db' := ConfirmTx(catalog, db, ticket, reservation, attempt).db;
    var auditoriumId := catalog.screenings[reservation.screeningId].auditoriumId;
    InsertExactly(db.reservationSeats, reservation, auditoriumId, reservation.seatIds);
    ReservationInserted(db.reservations, db.reservationSeats, reservation, auditoriumId,
                        db'.reservations[reservation.id]);
    RequestWritten(db.requests, db.requestSeats, ticket.id, db'.requests[ticket.id]);
    AttemptAppended(db.attempts, attempt);
  }

  lemma TakenMeansConflict(catalog: Catalog, db: Db, demand: Demand)
    requires SchemaOk(catalog, db)
    ensures (exists seatId | seatId in demand.seats :: HasSeatRow(db.reservationSeats, demand.screening, seatId))
       <==> HasConflict(View(db), demand)
  {
    if seatId :| seatId in demand.seats && HasSeatRow(db.reservationSeats, demand.screening, seatId) {
      var row :| row in db.reservationSeats && row.screeningId == demand.screening && row.seatId == seatId;
      SeatRowIsBookedSeat(catalog, db, demand.screening, seatId, row.reservationId);
      assert seatId in View(db).bookings[row.reservationId].demand.seats * demand.seats;
      assert Conflicts(View(db).bookings[row.reservationId], demand);
    }
    if HasConflict(View(db), demand) {
      var rid :| rid in View(db).bookings && Conflicts(View(db).bookings[rid], demand);
      var seatId :| seatId in View(db).bookings[rid].demand.seats * demand.seats;
      SeatRowIsBookedSeat(catalog, db, demand.screening, seatId, rid);
      assert HasSeatRow(db.reservationSeats, demand.screening, seatId);
    }
  }
}
