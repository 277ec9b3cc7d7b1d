/** Corners a caller may trip over, each with its exact condition and an input that shows it. */
module EdgeCases {
  import opened Domain
  import opened Queue
  import opened Protocol
  import opened InMemoryStore
  import A = AdapterAgreement
  import P = Postgres
  import W = InMemoryWorkRepository

  function Queued(seat: SeatId, sequence: nat): Row {
    Row(Demand(ProviderId(0), ScreeningId(0), {seat}, UserId("u")), REQUESTED, sequence, 0, 0, None)
  }

  function Lapsed(seat: SeatId, sequence: nat, expiresAt: int): Row {
    Queued(seat, sequence).(status := PROCESSING,
                             claim := Some(Claim(WorkerId("w"), ClaimToken(0), 0, expiresAt, 0)))
  }

  // ---------- time does not end a claim ----------

  /** A heartbeat changes a PROCESSING request's lease if and only if the handle is the stored one:
      the clock plays no part. */
  lemma HeartbeatIgnoresTheClock(q: State, ticket: Ticket, at: int, expiresAt: int)
    requires ticket.id in q.rows && q.rows[ticket.id].status.PROCESSING? && q.rows[ticket.id].claim.Some?
    requires q.rows[ticket.id].claim.value.expiresAt != expiresAt
    ensures var q' := Heartbeat(q, ticket, at, expiresAt);
            && (q' != q <==> q.rows[ticket.id].claim.value.worker == ticket.worker
                             && q.rows[ticket.id].claim.value.token == ticket.token)
            && (q' != q ==> (Expired(q'.rows[ticket.id], at) <==> expiresAt <= at))
  {
    if Holds(q, ticket) {
      assert Heartbeat(q, ticket, at, expiresAt).rows[ticket.id] != q.rows[ticket.id];
    }
  }

  /** An expired claim that nobody has taken over is renewed, and confirmed, by its holder. */
  lemma ExpiredClaimIsStillGood() returns (q: State, ticket: Ticket, now: int, rid: ReservationId)
    ensures ticket.id in q.rows && Expired(q.rows[ticket.id], now) && Owns(q, ticket)
    ensures var renewed := Heartbeat(q, ticket, now, now + 30);
            Owns(renewed, ticket) && !Expired(renewed.rows[ticket.id], now)
    ensures rid !in q.bookings && !HasConflict(q, ticket.demand)
    ensures forall attempt :: Sell(q, ticket, rid, now, attempt).rows[ticket.id].status.CONFIRMED?
  {
    var row := Lapsed(SeatId(0), 1, 10);
    q, now, rid := State(map[RequestId(0) := row], map[], map[]), 99, ReservationId(0);
    ticket := Ticket(RequestId(0), row.demand, 1, WorkerId("w"), ClaimToken(0), 0, 10, 0, 0);
  }

  // ---------- an empty claim while others wait ----------

  /** A claim returns no item although some request is eligible if and only if the head's lease budget
      is spent; the head is then FAILED and every other request is as eligible as before. */
  lemma EmptyClaimIff(q: State, head: RequestId, input: ClaimInput)
    requires IsHead(q, head, input, {})
    ensures var q' := ClaimHead(q, head, input);
            && (LeaseBudgetSpent(q.rows[head], input) <==> q'.rows[head].status.FAILED?)
            && (LeaseBudgetSpent(q.rows[head], input) <==> q'.rows[head].claim.None?)
            && forall id | id in q.rows && id != head :: Eligible(q'.rows[id], input) <==> Eligible(q.rows[id], input)
  {
  }

  /** The head is failed, no item is returned, and the second request, eligible all along, waits on. */
  lemma ClaimComesBackEmpty() returns (q: State, head: RequestId, second: RequestId, input: ClaimInput)
    ensures IsHead(q, head, input, {}) && LeaseBudgetSpent(q.rows[head], input)
    ensures second in q.rows && second != head && Eligible(q.rows[second], input)
    ensures var q' := ClaimHead(q, head, input);
            && q'.rows[head].status.FAILED? && q'.rows[second] == q.rows[second]
            && IsHead(q', second, input, {}) && !LeaseBudgetSpent(q'.rows[second], input)
  {
    head, second := RequestId(0), RequestId(1);
    q := State(map[head := Lapsed(SeatId(0), 1, 10), second := Queued(SeatId(1), 2)], map[], map[]);
    input := ClaimInput(WorkerId("v"), ClaimToken(1), 99, 129, 0, 1);
    assert IsHead(q, head, input, {});
  }

  // ---------- the last sequence ----------

  /** Saving a new request without a safe sequence left: the save throws, yet the request is stored,
      without the metadata every later scan asks for. */
  method SaveBeyondTheLastSequence(request: ReservationRequest) returns (store: Store, r: Result<(), SaveError>)
    ensures fresh(store) && r == Err(SequenceExhausted)
    ensures request.id in store.requestsById && request.id !in store.metadataById && !store.Valid()
  {
    store := new Store(Catalog(map[], map[]));
    assert store.requestsById == map[] by { store.SameKeys(); }
    store.nextSequence := MAX_SAFE_INTEGER + 1;
    r := store.SaveReservationRequest(request);
  }

  // ---------- attempts without a reason ----------

  /** A rejected and a failed row whose reason is NULL: the constraint admits both, since comparing
      the reason is unknown, and neither can be read back. */
  lemma NullReasonIsAdmitted() returns (rejected: P.AttemptRow, failed: P.AttemptRow)
    ensures rejected.outcome == "rejected" && failed.outcome == "failed" && rejected.reason == failed.reason == None
    ensures P.Admitted(rejected) && P.ToAttempt(rejected).None?
    ensures P.Admitted(failed) && P.ToAttempt(failed).None?
  {
    P.LiteralsDiffer();
    rejected := P.AttemptRow(RequestId(0), 1, 0, 1, "rejected", None, None, Some(ReservationId(0)));
    failed := P.AttemptRow(RequestId(0), 1, 0, 1, "failed", None, None, None);
  }

  // ---------- what only memory accepts ----------

  /** Releasing an owned item with an attempt about a request that does not exist: memory serves the
      call, and files the attempt under that request; the foreign key makes Postgres refuse it. */
  lemma StrayAttemptIsServedInMemoryOnly() returns (catalog: Catalog, db: P.Db, call: A.PortCall, owned: RequestId)
    ensures P.SchemaOk(catalog, db) && owned in P.View(db).rows && P.View(db).rows[owned].status.PROCESSING?
    ensures forall db', reply | A.PgAnswers(catalog, db, call, db', reply) :: reply.Threw? && db' == db
    ensures exists q', reply :: A.Answers(P.View(db), call, q', reply)
    ensures forall q', reply | A.Answers(P.View(db), call, q', reply) ::
              reply.Closed? && owned in q'.rows && q'.rows[owned].status.REQUESTED?
  {
    owned := RequestId(0);
    var stray := RequestId(1);
    catalog := Catalog(map[ScreeningId(0) := Screening(ProviderId(0), AuditoriumId(0))], map[]);
    var claim := Claim(WorkerId("w"), ClaimToken(0), 0, 10, 0);
    db := P.Db(map[owned := P.RequestRow(ProviderId(0), ScreeningId(0), UserId("u"), PROCESSING, 1, Some(claim), 0, 0)],
               {}, map[], {}, []);
    var request := ReservationRequest(owned, ProviderId(0), ScreeningId(0), [], UserId("u"), PROCESSING);
    var item := W.ClaimedReservationRequest(request, 1, WorkerId("w"), ClaimToken(0), 0, 10, 0, 0);
    call := A.PortCall.Release(item, Attempt(stray, 1, 0, 1, UnexpectedError));
    var q := P.View(db);
    assert Owns(q, W.TicketOf(item)) && stray !in q.rows;
    assert A.Answers(q, call, Settle(q, owned, REQUESTED, true, call.attempt), A.Closed);
    assert P.SchemaOk(catalog, db);
    hide P.SchemaOk, P.View;
    forall db', reply | A.PgAnswers(catalog, db, call, db', reply) ensures reply.Threw? && db' == db {
      A.PgServes(catalog, db, call, db', reply);
    }
  }
}
