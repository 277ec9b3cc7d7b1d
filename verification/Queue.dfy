/** The work queue as a value, and the effect of every repository operation on it. Seats are sets
    here: seat order is the one thing the two storage adapters do not share. */
module Queue {
  import opened Domain

  /** What a request asks for and a reservation grants. */
  datatype Demand = Demand(provider: ProviderId, screening: ScreeningId, seats: set<SeatId>, user: UserId)

  datatype Claim = Claim(worker: WorkerId, token: ClaimToken, claimedAt: int, expiresAt: int, heartbeatAt: int)

  datatype Row = Row(
    demand: Demand,
    status: Status,
    sequence: nat,
    leaseTimeouts: nat,
    transientFailures: nat,
    claim: Option<Claim>)

  datatype Booking = Booking(requestId: RequestId, demand: Demand, confirmedAt: int)

  /** What a reservation grants. */
  function Granted(reservation: Reservation): Demand {
    Demand(reservation.movieProviderId, reservation.screeningId, SeatSet(reservation.seatIds),
           reservation.reservedByUserId)
  }

  datatype State = State(
    rows: map<RequestId, Row>,
    bookings: map<ReservationId, Booking>,
    log: map<RequestId, seq<Attempt>>)

  /** What a worker holds after a successful claim. */
  datatype Ticket = Ticket(
    id: RequestId,
    demand: Demand,
    sequence: nat,
    worker: WorkerId,
    token: ClaimToken,
    claimedAt: int,
    expiresAt: int,
    leaseTimeouts: nat,
    transientFailures: nat)

  datatype ClaimInput = ClaimInput(
    workerId: WorkerId,
    claimToken: ClaimToken,
    claimedAt: int,
    claimExpiresAt: int,
    maxLeaseTimeouts: nat,
    maxTransientFailures: nat)

  function LogOf(log: map<RequestId, seq<Attempt>>, id: RequestId): seq<Attempt> {
    if id in log then log[id] else []
  }

  function Append(log: map<RequestId, seq<Attempt>>, attempt: Attempt): map<RequestId, seq<Attempt>> {
    log[attempt.requestId := LogOf(log, attempt.requestId) + [attempt]]
  }

  // ---------- conflicts ----------

  predicate Overlap(a: Demand, b: Demand) {
    a.screening == b.screening && a.seats * b.seats != {}
  }

  predicate Conflicts(booking: Booking, demand: Demand) {
    Overlap(booking.demand, demand)
  }

  ghost predicate HasConflict(s: State, demand: Demand) {
    exists rid | rid in s.bookings :: Conflicts(s.bookings[rid], demand)
  }

  /** The seats of a screening that reservations hold. */
  function SoldIn(bookings: map<ReservationId, Booking>, screeningId: ScreeningId): set<SeatId> {
    set rid, seatId | rid in bookings && bookings[rid].demand.screening == screeningId
                      && seatId in bookings[rid].demand.seats :: seatId
  }

  /** No seat of a screening is sold twice. */
  ghost predicate Disjoint(s: State) {
    DisjointBookings(s.bookings)
  }

  ghost predicate DisjointBookings(bookings: map<ReservationId, Booking>) {
    forall a, b | a in bookings && b in bookings && a != b :: !Conflicts(bookings[a], bookings[b].demand)
  }

  // ---------- claiming ----------

  predicate Expired(row: Row, now: int) {
    row.status.PROCESSING? && (row.claim.None? || row.claim.value.expiresAt <= now)
  }

  predicate Eligible(row: Row, input: ClaimInput) {
    || (row.status.REQUESTED? && row.transientFailures < input.maxTransientFailures)
    || Expired(row, input.claimedAt)
  }

  /** `id` is the eligible row of least sequence among those not in `skipped`. */
  ghost predicate IsHead(s: State, id: RequestId, input: ClaimInput, skipped: set<RequestId>) {
    && id in s.rows && id !in skipped && Eligible(s.rows[id], input)
    && forall other | other in s.rows && other !in skipped && Eligible(s.rows[other], input) ::
         s.rows[id].sequence <= s.rows[other].sequence
  }

  ghost predicate NothingEligible(s: State, input: ClaimInput, skipped: set<RequestId>) {
    forall id | id in s.rows && id !in skipped :: !Eligible(s.rows[id], input)
  }

  predicate LeaseBudgetSpent(row: Row, input: ClaimInput) {
    Expired(row, input.claimedAt) && row.leaseTimeouts >= input.maxLeaseTimeouts
  }

  function Claimed(row: Row, input: ClaimInput): Row {
    row.(status := PROCESSING,
         leaseTimeouts := row.leaseTimeouts + if Expired(row, input.claimedAt) then 1 else 0,
         claim := Some(Claim(input.workerId, input.claimToken, input.claimedAt, input.claimExpiresAt, input.claimedAt)))
  }

  function TicketFor(id: RequestId, row: Row, input: ClaimInput): Ticket {
    var claimed := Claimed(row, input);
    Ticket(id, row.demand, row.sequence, input.workerId, input.claimToken, input.claimedAt, input.claimExpiresAt,
           claimed.leaseTimeouts, claimed.transientFailures)
  }

  /** Claiming the head: a new claim, or FAILED when its lease budget is spent. */
  function ClaimHead(s: State, id: RequestId, input: ClaimInput): State
    requires id in s.rows
  {
    if LeaseBudgetSpent(s.rows[id], input) then
      Settle(s, id, FAILED, false,
             Attempt(id, s.rows[id].sequence, input.claimedAt, input.claimedAt, LeaseTimeout))
    else s.(rows := s.rows[id := Claimed(s.rows[id], input)])
  }

  // ---------- ownership ----------

  predicate Holds(s: State, ticket: Ticket) {
    && ticket.id in s.rows
    && var row := s.rows[ticket.id];
    && row.status.PROCESSING? && row.claim.Some?
    && row.claim.value.worker == ticket.worker && row.claim.value.token == ticket.token
  }

  /** The check made before every settling write. */
  predicate Owns(s: State, ticket: Ticket) {
    Holds(s, ticket) && s.rows[ticket.id].sequence == ticket.sequence
  }

  function Renew(s: State, id: RequestId, at: int, expiresAt: int): State
    requires id in s.rows && s.rows[id].claim.Some?
  {
    var row := s.rows[id];
    s.(rows := s.rows[id := row.(claim := Some(row.claim.value.(expiresAt := expiresAt, heartbeatAt := at)))])
  }

  function Heartbeat(s: State, ticket: Ticket, at: int, expiresAt: int): State {
    if Holds(s, ticket) then Renew(s, ticket.id, at, expiresAt) else s
  }

  // ---------- settling ----------

  function Closed(row: Row, status: Status, transientFailure: bool): Row {
    row.(status := status, claim := None,
         transientFailures := row.transientFailures + if transientFailure then 1 else 0)
  }

  /** Leaves PROCESSING: new status, claim cleared, one attempt recorded. */
  function Settle(s: State, id: RequestId, status: Status, transientFailure: bool, attempt: Attempt): State
    requires id in s.rows
  {
    s.(rows := s.rows[id := Closed(s.rows[id], status, transientFailure)], log := Append(s.log, attempt))
  }

  function Book(s: State, rid: ReservationId, booking: Booking): State {
    s.(bookings := s.bookings[rid := booking])
  }

  function Enqueue(s: State, id: RequestId, demand: Demand, sequence: nat): State {
    s.(rows := s.rows[id := Row(demand, REQUESTED, sequence, 0, 0, None)])
  }
}
