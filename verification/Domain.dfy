/** The entities every component shares. Identifiers are branded, as in the source; a UUID is
    represented by its 128-bit key, which is what Postgres orders uuid columns by. Instants are
    integer milliseconds. */
module Domain {
  datatype Option<+T> = None | Some(value: T)
  datatype Result<+T, +E> = Ok(value: T) | Err(error: E) {
    predicate IsFailure() { Err? }
    function PropagateFailure<U>(): Result<U, E> requires Err? { Err(error) }
    function Extract(): T requires Ok? { value }
  }

  datatype ProviderId = ProviderId(key: nat)
  datatype AuditoriumId = AuditoriumId(key: nat)
  datatype ScreeningId = ScreeningId(key: nat)
  datatype SeatId = SeatId(key: nat)
  datatype RequestId = RequestId(key: nat)
  datatype ReservationId = ReservationId(key: nat)
  datatype UserId = UserId(name: string)
  datatype WorkerId = WorkerId(name: string)
  datatype ClaimToken = ClaimToken(key: nat)

  datatype Status = REQUESTED | PROCESSING | CONFIRMED | REJECTED | FAILED

  predicate Terminal(status: Status) {
    status.CONFIRMED? || status.REJECTED? || status.FAILED?
  }

  datatype ReservationRequest = ReservationRequest(
    id: RequestId,
    movieProviderId: ProviderId,
    screeningId: ScreeningId,
    seatIds: seq<SeatId>,
    requestedByUserId: UserId,
    status: Status)

  datatype Reservation = Reservation(
    id: ReservationId,
    movieProviderId: ProviderId,
    reservationRequestId: RequestId,
    screeningId: ScreeningId,
    seatIds: seq<SeatId>,
    reservedByUserId: UserId,
    confirmedAt: int)

  /** How one processing attempt ended; the two failures are the source's two `reason` values. */
  datatype Outcome =
    | Confirmed(reservationId: ReservationId)
    | Rejected(conflictingReservationId: ReservationId)
    | UnexpectedError
    | LeaseTimeout

  datatype Attempt = Attempt(
    requestId: RequestId, sequence: nat, startedAt: int, completedAt: int, outcome: Outcome)

  datatype Screening = Screening(movieProviderId: ProviderId, auditoriumId: AuditoriumId)

  /** `row` is the position of the row label in the collation order. */
  datatype Seat = Seat(movieProviderId: ProviderId, auditoriumId: AuditoriumId, row: nat, number: int)

  datatype Catalog = Catalog(screenings: map<ScreeningId, Screening>, seats: map<SeatId, Seat>)

  /** The seats of the auditorium a screening plays in. */
  function SeatsOf(catalog: Catalog, screeningId: ScreeningId): set<SeatId> {
    if screeningId !in catalog.screenings then {} else
      var screening := catalog.screenings[screeningId];
      set id | id in catalog.seats
               && catalog.seats[id].movieProviderId == screening.movieProviderId
               && catalog.seats[id].auditoriumId == screening.auditoriumId
  }

  function SeatSet(seatIds: seq<SeatId>): set<SeatId> {
    set seatId | seatId in seatIds
  }

  predicate NoDuplicates<T(==)>(items: seq<T>) {
    forall i, j | 0 <= i < j < |items| :: items[i] != items[j]
  }

  datatype CreateError = NoSeats | DuplicateSeats

  function CreateReservationRequest(
      id: RequestId, movieProviderId: ProviderId, screeningId: ScreeningId, seatIds: seq<SeatId>, userId: UserId)
    : (r: Result<ReservationRequest, CreateError>)
  {
    if |seatIds| == 0 then Err(NoSeats)
    else if |SeatSet(seatIds)| != |seatIds| then Err(DuplicateSeats)
    else Ok(ReservationRequest(id, movieProviderId, screeningId, seatIds, userId, REQUESTED))
  }

  function CreateReservation(
      id: ReservationId, movieProviderId: ProviderId, requestId: RequestId, screeningId: ScreeningId,
      seatIds: seq<SeatId>, userId: UserId, confirmedAt: int)
    : (r: Result<Reservation, CreateError>)
  {
    if |seatIds| == 0 then Err(NoSeats)
    else if |SeatSet(seatIds)| != |seatIds| then Err(DuplicateSeats)
    else Ok(Reservation(id, movieProviderId, requestId, screeningId, seatIds, userId, confirmedAt))
  }

  /** The set-size test of both factories rejects exactly the lists that repeat a seat. */
  lemma {:induction false} SizeTestFindsDuplicates(seatIds: seq<SeatId>)
    ensures |SeatSet(seatIds)| <= |seatIds|
    ensures |SeatSet(seatIds)| == |seatIds| <==> NoDuplicates(seatIds)
  {
    if seatIds == [] {
      assert SeatSet(seatIds) == {};
    } else {
      var last, front := seatIds[|seatIds| - 1], seatIds[..|seatIds| - 1];
      SizeTestFindsDuplicates(front);
      assert SeatSet(seatIds) == SeatSet(front) + {last};
      assert last in SeatSet(front) <==> exists i :: 0 <= i < |front| && seatIds[i] == last;
    }
  }

  /** Both factories accept exactly the non-empty lists of distinct seats, as given. */
  lemma FactoriesAcceptExactly(request: ReservationRequest, reservation: Reservation)
    ensures var r := CreateReservationRequest(request.id, request.movieProviderId, request.screeningId, request.seatIds,
                                              request.requestedByUserId);
            && (r.Ok? <==> request.seatIds != [] && NoDuplicates(request.seatIds))
            && (r.Ok? ==> r.value == request.(status := REQUESTED))
            && (r == Err(NoSeats) <==> request.seatIds == [])
    ensures var r := CreateReservation(reservation.id, reservation.movieProviderId, reservation.reservationRequestId,
                                       reservation.screeningId, reservation.seatIds, reservation.reservedByUserId,
                                       reservation.confirmedAt);
            && (r.Ok? <==> reservation.seatIds != [] && NoDuplicates(reservation.seatIds))
            && (r.Ok? ==> r.value == reservation)
            && (r == Err(NoSeats) <==> reservation.seatIds == [])
  {
    SizeTestFindsDuplicates(request.seatIds);
    SizeTestFindsDuplicates(reservation.seatIds);
  }

  datatype TransitionError = IllegalTransition(from: Status, to: Status)

  /** Status changes keep the request and are legal from one status only. */
  function Transition(request: ReservationRequest, next: Status, allowed: Status)
    : (r: Result<ReservationRequest, TransitionError>)
  {
    if request.status != allowed then Err(IllegalTransition(request.status, next))
    else Ok(request.(status := next))
  }

  /** The four status changes: out of REQUESTED into PROCESSING, out of PROCESSING into an end. */
  function StartProcessing(request: ReservationRequest): Result<ReservationRequest, TransitionError> {
    Transition(request, PROCESSING, REQUESTED)
  }

  function ConfirmRequest(request: ReservationRequest): Result<ReservationRequest, TransitionError> {
    Transition(request, CONFIRMED, PROCESSING)
  }

  function RejectRequest(request: ReservationRequest): Result<ReservationRequest, TransitionError> {
    Transition(request, REJECTED, PROCESSING)
  }

  function FailRequest(request: ReservationRequest): Result<ReservationRequest, TransitionError> {
    Transition(request, FAILED, PROCESSING)
  }

  /** Nothing leaves a terminal status, the three ends are reached from PROCESSING alone and keep the
      request, and a requested request can only start. */
  lemma StatusChangesAreGuarded(request: ReservationRequest)
    ensures Terminal(request.status) ==>
              && StartProcessing(request).Err? && ConfirmRequest(request).Err?
              && RejectRequest(request).Err? && FailRequest(request).Err?
    ensures request.status.PROCESSING? ==>
              && StartProcessing(request).Err?
              && ConfirmRequest(request) == Ok(request.(status := CONFIRMED))
              && RejectRequest(request) == Ok(request.(status := REJECTED))
              && FailRequest(request) == Ok(request.(status := FAILED))
    ensures request.status.REQUESTED? ==>
              && StartProcessing(request) == Ok(request.(status := PROCESSING))
              && ConfirmRequest(request).Err? && RejectRequest(request).Err? && FailRequest(request).Err?
    ensures ConfirmRequest(request).Err? ==>
        ConfirmRequest(request).error == IllegalTransition(request.status, CONFIRMED)
  {
  }
}
