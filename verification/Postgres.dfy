/** The Postgres adapter: tables, the schema's constraints, and each transaction as one function. */
module Postgres {
  import opened Domain
  import opened Queue
  import opened Protocol

  // ---------- tables ----------

  datatype RequestRow = RequestRow(
    movieProviderId: ProviderId,
    screeningId: ScreeningId,
    requestedByUserId: UserId,
    status: Status,
    sequence: nat,
    claim: Option<Claim>,
    leaseTimeoutCount: nat,
    transientFailureCount: nat)

  datatype RequestSeatRow = RequestSeatRow(
    requestId: RequestId, movieProviderId: ProviderId, screeningId: ScreeningId,
    auditoriumId: AuditoriumId, seatId: SeatId)

  datatype ReservationRow = ReservationRow(
    movieProviderId: ProviderId,
    requestId: RequestId,
    screeningId: ScreeningId,
    reservedByUserId: UserId,
    confirmedAt: int)

  datatype ReservationSeatRow = ReservationSeatRow(
    reservationId: ReservationId, movieProviderId: ProviderId, screeningId: ScreeningId,
    auditoriumId: AuditoriumId, seatId: SeatId)

  datatype AttemptRow = AttemptRow(
    requestId: RequestId,
    sequence: nat,
    startedAt: int,
    completedAt: int,
    outcome: string,
    reason: Option<string>,
    reservationId: Option<ReservationId>,
    conflictingReservationId: Option<ReservationId>)

  /** Maps are keyed by primary key; attempt rows are in id order. */
  datatype Db = Db(
    requests: map<RequestId, RequestRow>,
    requestSeats: set<RequestSeatRow>,
    reservations: map<ReservationId, ReservationRow>,
    reservationSeats: set<ReservationSeatRow>,
    attempts: seq<AttemptRow>)

  // ---------- attempt rows ----------

  function FromAttempt(a: Attempt): AttemptRow {
    match a.outcome
    case Confirmed(rid) =>
      AttemptRow(a.requestId, a.sequence, a.startedAt, a.completedAt, "confirmed", None, Some(rid), None)
    case Rejected(rid) =>
      AttemptRow(a.requestId, a.sequence, a.startedAt, a.completedAt, "rejected", Some("seat-conflict"), None,
                 Some(rid))
    case UnexpectedError =>
      AttemptRow(a.requestId, a.sequence, a.startedAt, a.completedAt, "failed", Some("unexpected-error"), None, None)
    case LeaseTimeout =>
      AttemptRow(a.requestId, a.sequence, a.startedAt, a.completedAt, "failed", Some("lease-timeout"), None, None)
  }

  function ToAttempt(row: AttemptRow): Option<Attempt> {
    if row.outcome == "confirmed" && row.reservationId.Some? then
      Some(Attempt(row.requestId, row.sequence, row.startedAt, row.completedAt, Confirmed(row.reservationId.value)))
    else if row.outcome == "rejected" && row.reason == Some("seat-conflict") && row.conflictingReservationId.Some? then
      Some(Attempt(row.requestId, row.sequence, row.startedAt, row.completedAt,
                   Rejected(row.conflictingReservationId.value)))
    else if row.outcome == "failed" && row.reason == Some("unexpected-error") then
      Some(Attempt(row.requestId, row.sequence, row.startedAt, row.completedAt, UnexpectedError))
    else if row.outcome == "failed" && row.reason == Some("lease-timeout") then
      Some(Attempt(row.requestId, row.sequence, row.startedAt, row.completedAt, LeaseTimeout))
    else None
  }

  /** SQL's truth values: comparing with NULL is unknown. */
  datatype Truth = Yes | No | Unknown

  function And(a: Truth, b: Truth): Truth {
    if a.No? || b.No? then No else if a.Unknown? || b.Unknown? then Unknown else Yes
  }

  function Or(a: Truth, b: Truth): Truth {
    if a.Yes? || b.Yes? then Yes else if a.Unknown? || b.Unknown? then Unknown else No
  }

  function Of(b: bool): Truth {
    if b then Yes else No
  }

  function IsOneOf(column: Option<string>, values: set<string>): Truth {
    if column.None? then Unknown else Of(column.value in values)
  }

  /** The outcome column's check. */
  function OutcomeCheck(row: AttemptRow): Truth {
    IsOneOf(Some(row.outcome), {"confirmed", "rejected", "failed"})
  }

  /** The check over outcome, reason and the two reservation columns. */
  function ShapeCheck(row: AttemptRow): Truth {
    Or(Or(And(And(And(Of(row.outcome == "confirmed"), Of(row.reservationId.Some?)), Of(row.reason.None?)),
              Of(row.conflictingReservationId.None?)),
          And(And(And(Of(row.outcome == "rejected"), IsOneOf(row.reason, {"seat-conflict"})),
                  Of(row.reservationId.None?)), Of(row.conflictingReservationId.Some?))),
       And(And(And(Of(row.outcome == "failed"), IsOneOf(row.reason, {"unexpected-error", "lease-timeout"})),
               Of(row.reservationId.None?)), Of(row.conflictingReservationId.None?)))
  }

  /** A check refuses a row only when it is false of it, not when it is unknown. */
  predicate Admitted(row: AttemptRow) {
    !OutcomeCheck(row).No? && !ShapeCheck(row).No?
  }

  /** The three shapes the check spells out, all of whose columns compare as true. */
  predicate ShapeOk(row: AttemptRow) {
    || (row.outcome == "confirmed" && row.reservationId.Some? && row.reason.None? && row.conflictingReservationId.None?)
    || (row.outcome == "rejected" && row.reason == Some("seat-conflict") && row.reservationId.None?
        && row.conflictingReservationId.Some?)
    || (row.outcome == "failed" && (row.reason == Some("unexpected-error") || row.reason == Some("lease-timeout"))
        && row.reservationId.None? && row.conflictingReservationId.None?)
  }

  lemma LiteralsDiffer()
    ensures "confirmed" != "rejected" && "confirmed" != "failed" && "rejected" != "failed"
    ensures "unexpected-error" != "lease-timeout"
  {
    assert "confirmed"[0] == 'c' && "rejected"[0] == 'r' && "failed"[0] == 'f';
    assert "unexpected-error"[0] == 'u' && "lease-timeout"[0] == 'l';
  }

  /** What is written is read back, and admitted. */
  lemma AttemptRoundTrip(a: Attempt)
    ensures ToAttempt(FromAttempt(a)) == Some(a) && ShapeOk(FromAttempt(a)) && Admitted(FromAttempt(a))
  {
    LiteralsDiffer();
  }

  /** Besides the three shapes the constraint admits rejected and failed rows without a reason. */
  lemma AdmittedIff(row: AttemptRow)
    ensures Admitted(row) <==>
              || ShapeOk(row)
              || (&& row.reason.None? && row.reservationId.None?
                  && (|| (row.outcome == "rejected" && row.conflictingReservationId.Some?)
                      || (row.outcome == "failed" && row.conflictingReservationId.None?)))
  {
    LiteralsDiffer();
  }

  /** Those are the admitted rows that cannot be read back. */
  lemma AdmittedReadsBackIff(row: AttemptRow)
    requires Admitted(row)
    ensures ToAttempt(row).Some? <==> row.outcome == "confirmed" || row.reason.Some?
    ensures ToAttempt(row).Some? <==> ShapeOk(row)
  {
    LiteralsDiffer();
  }

  /** The spelt-out shapes are exactly the rows that attempts are written as. */
  lemma ShapeIsWrittenShape(row: AttemptRow)
    ensures ShapeOk(row) <==> ToAttempt(row).Some? && FromAttempt(ToAttempt(row).value) == row
  {
    LiteralsDiffer();
  }

  // ---------- what the tables stand for ----------

  function RequestSeats(seats: set<RequestSeatRow>, id: RequestId): set<SeatId> {
    set row | row in seats && row.requestId == id :: row.seatId
  }

  function ReservationSeats(seats: set<ReservationSeatRow>, rid: ReservationId): set<SeatId> {
    set row | row in seats && row.reservationId == rid :: row.seatId
  }

  function AsRow(row: RequestRow, seats: set<SeatId>): Row {
    Row(Demand(row.movieProviderId, row.screeningId, seats, row.requestedByUserId), row.status, row.sequence,
        row.leaseTimeoutCount, row.transientFailureCount, row.claim)
  }

  function AsBooking(row: ReservationRow, seats: set<SeatId>): Booking {
    Booking(row.requestId, Demand(row.movieProviderId, row.screeningId, seats, row.reservedByUserId), row.confirmedAt)
  }

  function AttemptsOf(attempts: seq<AttemptRow>, id: RequestId): seq<Attempt> {
    if attempts == [] then []
    else
      var last := attempts[|attempts| - 1];
      AttemptsOf(attempts[..|attempts| - 1], id)
      + if last.requestId == id && ToAttempt(last).Some? then [ToAttempt(last).value] else []
  }

  ghost function RowsView(requests: map<RequestId, RequestRow>, seats: set<RequestSeatRow>): map<RequestId, Row> {
    map id | id in requests :: AsRow(requests[id], RequestSeats(seats, id))
  }

  ghost function BookingsView(reservations: map<ReservationId, ReservationRow>, seats: set<ReservationSeatRow>)
    : map<ReservationId, Booking>
  {
    map rid | rid in reservations :: AsBooking(reservations[rid], ReservationSeats(seats, rid))
  }

  ghost function LogView(attempts: seq<AttemptRow>): map<RequestId, seq<Attempt>> {
    map id | id in (set row | row in attempts :: row.requestId) :: AttemptsOf(attempts, id)
  }

  ghost function View(db: Db): State {
    State(RowsView(db.requests, db.requestSeats), BookingsView(db.reservations, db.reservationSeats),
          LogView(db.attempts))
  }

  // ---------- schema ----------

  predicate ScreeningFits(catalog: Catalog, screeningId: ScreeningId, movieProviderId: ProviderId) {
    screeningId in catalog.screenings && catalog.screenings[screeningId].movieProviderId == movieProviderId
  }

  /** The composite foreign keys to screenings and seats. */
  predicate SeatFits(catalog: Catalog, movieProviderId: ProviderId, screeningId: ScreeningId,
                     auditoriumId: AuditoriumId, seatId: SeatId)
  {
    && ScreeningFits(catalog, screeningId, movieProviderId)
    && catalog.screenings[screeningId].auditoriumId == auditoriumId
    && seatId in catalog.seats && catalog.seats[seatId].movieProviderId == movieProviderId
    && catalog.seats[seatId].auditoriumId == auditoriumId
  }

  ghost predicate RequestSeatsFit(catalog: Catalog, requests: map<RequestId, RequestRow>, seats: set<RequestSeatRow>) {
    forall row | row in seats ::
      && row.requestId in requests
      && requests[row.requestId].movieProviderId == row.movieProviderId
      && requests[row.requestId].screeningId == row.screeningId
      && SeatFits(catalog, row.movieProviderId, row.screeningId, row.auditoriumId, row.seatId)
  }

  ghost predicate ReservationsFit(requests: map<RequestId, RequestRow>,
                                  reservations: map<ReservationId, ReservationRow>)
  {
    && (forall rid | rid in reservations ::
          && reservations[rid].requestId in requests
          && requests[reservations[rid].requestId].movieProviderId == reservations[rid].movieProviderId
          && requests[reservations[rid].requestId].screeningId == reservations[rid].screeningId)
    && forall a, b | a in reservations && b in reservations && a != b ::
         reservations[a].requestId != reservations[b].requestId
  }

  /** Foreign keys of reservation_seats and its unique (screening, seat). */
  ghost predicate ReservationSeatsFit(catalog: Catalog, reservations: map<ReservationId, ReservationRow>,
                                      seats: set<ReservationSeatRow>)
  {
    && (forall row | row in seats ::
          && row.reservationId in reservations
          && reservations[row.reservationId].movieProviderId == row.movieProviderId
          && reservations[row.reservationId].screeningId == row.screeningId
          && SeatFits(catalog, row.movieProviderId, row.screeningId, row.auditoriumId, row.seatId))
    && forall a, b | a in seats && b in seats && a.screeningId == b.screeningId && a.seatId == b.seatId :: a == b
  }

  ghost predicate AttemptsFit(db: Db) {
    forall row | row in db.attempts ::
      && Admitted(row) && row.requestId in db.requests
      && (row.reservationId.Some? ==> row.reservationId.value in db.reservations)
      && (row.conflictingReservationId.Some? ==> row.conflictingReservationId.value in db.reservations)
  }

  ghost predicate SchemaOk(catalog: Catalog, db: Db) {
    && RequestSeatsFit(catalog, db.requests, db.requestSeats)
    && ReservationsFit(db.requests, db.reservations)
    && ReservationSeatsFit(catalog, db.reservations, db.reservationSeats)
    && AttemptsFit(db)
    && (forall id | id in db.requests ::
          ScreeningFits(catalog, db.requests[id].screeningId, db.requests[id].movieProviderId))
    && forall a, b | a in db.requests && b in db.requests
        && a != b :: db.requests[a].sequence != db.requests[b].sequence
  }

  // ---------- transactions ----------

  datatype SaveOutcome = Saved(db: Db) | DuplicateId | SaveFailed

  predicate NewSeatRowsFit(catalog: Catalog, request: ReservationRequest, auditoriumId: AuditoriumId) {
    && NoDuplicates(request.seatIds)
    && forall seatId | seatId in request.seatIds ::
         SeatFits(catalog, request.movieProviderId, request.screeningId, auditoriumId, seatId)
  }

  function SaveTx(catalog: Catalog, db: Db, request: ReservationRequest, sequence: nat): SaveOutcome {
    if !ScreeningFits(catalog, request.screeningId, request.movieProviderId) then SaveFailed
    else if request.id in db.requests then DuplicateId
    else
      var auditoriumId := catalog.screenings[request.screeningId].auditoriumId;
      if !NewSeatRowsFit(catalog, request, auditoriumId) then SaveFailed
      else
        Saved(db.(requests := db.requests[request.id := RequestRow(
                                request.movieProviderId, request.screeningId, request.requestedByUserId,
                                request.status, sequence, None, 0, 0)],
                  requestSeats := db.requestSeats
                    + set seatId | seatId in request.seatIds ::
                        RequestSeatRow(request.id, request.movieProviderId, request.screeningId, auditoriumId, seatId)))
  }

  /** The where clause of the claim query. */
  predicate Claimable(row: RequestRow, input: ClaimInput) {
    || (row.status.REQUESTED? && row.transientFailureCount < input.maxTransientFailures)
    || (row.status.PROCESSING? && (row.claim.None? || row.claim.value.expiresAt <= input.claimedAt))
  }

  /** What the claim query may return when other transactions hold the rows in `skipped`. */
  ghost predicate ClaimQuery(db: Db, input: ClaimInput, skipped: set<RequestId>, found: Option<RequestId>) {
    match found
    case None => forall id | id in db.requests && id !in skipped :: !Claimable(db.requests[id], input)
    case Some(id) =>
      && id in db.requests && id !in skipped && Claimable(db.requests[id], input)
      && forall other | other in db.requests && other !in skipped && Claimable(db.requests[other], input) ::
           db.requests[id].sequence <= db.requests[other].sequence
  }

  /** The rest of the claim transaction; `None` when the row was failed instead of claimed. */
  function ClaimTx(db: Db, input: ClaimInput, id: RequestId): (Db, Option<Ticket>)
    requires id in db.requests
  {
    var row := db.requests[id];
    var isLeaseTimeoutReclaim := row.status.PROCESSING?;
    if isLeaseTimeoutReclaim && row.leaseTimeoutCount >= input.maxLeaseTimeouts then
      (db.(requests := db.requests[id := row.(status := FAILED, claim := None)],
           attempts := db.attempts
             + [FromAttempt(Attempt(id, row.sequence, input.claimedAt, input.claimedAt, LeaseTimeout))]), None)
    else
      var updated := row.(
        status := PROCESSING,
        claim := Some(Claim(input.workerId, input.claimToken, input.claimedAt, input.claimExpiresAt, input.claimedAt)),
        leaseTimeoutCount := row.leaseTimeoutCount + if isLeaseTimeoutReclaim then 1 else 0);
      var demand := Demand(row.movieProviderId, row.screeningId, RequestSeats(db.requestSeats, id),
                           row.requestedByUserId);
      (db.(requests := db.requests[id := updated]),
       Some(Ticket(id, demand, updated.sequence, input.workerId, input.claimToken, input.claimedAt,
                   input.claimExpiresAt, updated.leaseTimeoutCount, updated.transientFailureCount)))
  }

  predicate HoldsRow(db: Db, ticket: Ticket) {
    && ticket.id in db.requests && db.requests[ticket.id].status.PROCESSING?
    && db.requests[ticket.id].claim.Some?
    && db.requests[ticket.id].claim.value.worker == ticket.worker
    && db.requests[ticket.id].claim.value.token == ticket.token
  }

  function HeartbeatTx(db: Db, ticket: Ticket, at: int, expiresAt: int): (Db, bool) {
    if !HoldsRow(db, ticket) then (db, false)
    else
      var row := db.requests[ticket.id];
      (db.(requests := db.requests[ticket.id :=
             row.(claim := Some(row.claim.value.(expiresAt := expiresAt, heartbeatAt := at)))]), true)
  }

  predicate RequireClaimedProcessingRequest(db: Db, ticket: Ticket) {
    && ticket.id in db.requests && db.requests[ticket.id].sequence == ticket.sequence
    && HoldsRow(db, ticket)
  }

  function UpdateClaimedRequestStatus(requests: map<RequestId, RequestRow>, id: RequestId, status: Status, bump: bool)
    : map<RequestId, RequestRow>
    requires id in requests
  {
    requests[id := requests[id].(
                     status := status, claim := None,
                     transientFailureCount := requests[id].transientFailureCount + if bump then 1 else 0)]
  }

  /** The foreign keys of an attempt row. */
  predicate AttemptFits(requests: map<RequestId, RequestRow>, reservations: map<ReservationId, ReservationRow>,
                        a: Attempt)
  {
    && a.requestId in requests
    && (a.outcome.Confirmed? ==> a.outcome.reservationId in reservations)
    && (a.outcome.Rejected? ==> a.outcome.conflictingReservationId in reservations)
  }

  /** Reject, release and fail: check ownership, update the row, append the attempt. */
  function SettleTx(db: Db, ticket: Ticket, status: Status, bump: bool, attempt: Attempt): Option<Db> {
    if !RequireClaimedProcessingRequest(db, ticket) then None
    else if !AttemptFits(db.requests, db.reservations, attempt) then None
    else Some(db.(requests := UpdateClaimedRequestStatus(db.requests, ticket.id, status, bump),
                  attempts := db.attempts + [FromAttempt(attempt)]))
  }

  datatype InsertError = DuplicateSeatRow | SeatTaken

  /** Row by row: primary key (reservation, seat), then unique (screening, seat). */
  function InsertSeatRows(rows: set<ReservationSeatRow>, reservation: Reservation, auditoriumId: AuditoriumId,
                          seatIds: seq<SeatId>)
    : Result<set<ReservationSeatRow>, InsertError>
    decreases seatIds
  {
    if seatIds == [] then Ok(rows)
    else if exists row | row in rows :: row.reservationId == reservation.id && row.seatId == seatIds[0] then
      Err(DuplicateSeatRow)
    else if exists row | row in rows :: row.screeningId == reservation.screeningId && row.seatId == seatIds[0] then
      Err(SeatTaken)
    else
      InsertSeatRows(rows + {ReservationSeatRow(reservation.id, reservation.movieProviderId, reservation.screeningId,
                                                auditoriumId, seatIds[0])},
                     reservation, auditoriumId, seatIds[1..])
  }

  /** A reservation row names a request of the same provider and screening that has none yet. */
  predicate NewReservationFits(db: Db, reservation: Reservation) {
    && reservation.id !in db.reservations
    && (forall rid | rid in db.reservations :: db.reservations[rid].requestId != reservation.reservationRequestId)
    && reservation.reservationRequestId in db.requests
    && db.requests[reservation.reservationRequestId].movieProviderId == reservation.movieProviderId
    && db.requests[reservation.reservationRequestId].screeningId == reservation.screeningId
  }

  datatype ConfirmOutcome = Committed(db: Db) | SeatConstraint | OtherFailure

  /** The confirm transaction. */
  function ConfirmTx(catalog: Catalog, db: Db, ticket: Ticket, reservation: Reservation, attempt: Attempt)
    : ConfirmOutcome
  {
    if !RequireClaimedProcessingRequest(db, ticket) then OtherFailure
    else if !ScreeningFits(catalog, reservation.screeningId, reservation.movieProviderId) then OtherFailure
    else if !NewReservationFits(db, reservation) then OtherFailure
    else
      var auditoriumId := catalog.screenings[reservation.screeningId].auditoriumId;
      match InsertSeatRows(db.reservationSeats, reservation, auditoriumId, reservation.seatIds)
      case Err(DuplicateSeatRow) => OtherFailure
      case Err(SeatTaken) => SeatConstraint
      case Ok(rows) =>
        if exists seatId | seatId in reservation.seatIds ::
             !SeatFits(catalog, reservation.movieProviderId, reservation.screeningId, auditoriumId, seatId)
        then OtherFailure
        else
          var reservations := db.reservations[reservation.id := ReservationRow(
              reservation.movieProviderId, reservation.reservationRequestId, reservation.screeningId,
              reservation.reservedByUserId, reservation.confirmedAt)];
          if !AttemptFits(db.requests, reservations, attempt) then OtherFailure
          else
            Committed(db.(requests := UpdateClaimedRequestStatus(db.requests, ticket.id, CONFIRMED, false),
                          reservations := reservations, reservationSeats := rows,
                          attempts := db.attempts + [FromAttempt(attempt)]))
  }

  /** The conflict lookup: the matching seat row of least reservation id, if any. */
  ghost predicate LookupQuery(db: Db, screeningId: ScreeningId, seatIds: set<SeatId>, found: Option<ReservationId>) {
    match found
    case None => forall row | row in db.reservationSeats :: !(row.screeningId == screeningId && row.seatId in seatIds)
    case Some(rid) =>
      && (exists row | row in db.reservationSeats ::
            row.screeningId == screeningId && row.seatId in seatIds && row.reservationId == rid)
      && forall row | row in db.reservationSeats && row.screeningId == screeningId && row.seatId in seatIds ::
           rid.key <= row.reservationId.key
  }
}
