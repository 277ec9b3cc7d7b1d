/** The two storage adapters, called one operation at a time, cannot be told apart except by seat
    order and by which conflicting reservation a rejection names. */
module AdapterAgreement {
  import opened Domain
  import opened Queue
  import opened Protocol
  import opened InMemoryStore
  import opened InMemoryWorkRepository
  import I = ProtocolInvariant
  import P = Postgres
  import V = PostgresViews
  import S = PostgresProtocol

  /** One call of the work-repository port. */
  datatype PortCall =
    | Claim(input: ClaimInput)
    | Renew(item: ClaimedReservationRequest, at: int, expiresAt: int)
    | Confirm(item: ClaimedReservationRequest, reservation: Reservation, attempt: Attempt)
    | Reject(item: ClaimedReservationRequest, attempt: Attempt)
    | Release(item: ClaimedReservationRequest, attempt: Attempt)
    | Fail(item: ClaimedReservationRequest, attempt: Attempt)

  datatype Reply =
    | Item(ticket: Option<Ticket>)
    | Renewed(renewed: bool)
    | ConfirmedReply
    | RejectedReply(conflict: ReservationId)
    | Closed
    | Threw

  /** What a port call may do to the queue and answer. */
  ghost predicate Answers(q: State, call: PortCall, q': State, reply: Reply) {
    match call
    case Claim(input) =>
      exists head :: ClaimAnswer(q, input, head, q', reply)
    case Renew(item, at, expiresAt) =>
      q' == Heartbeat(q, TicketOf(item), at, expiresAt) && reply == Renewed(Holds(q, TicketOf(item)))
    case Confirm(item, reservation, attempt) =>
      var ticket := TicketOf(item);
      if !Owns(q, ticket) || reservation.id in q.bookings then q' == q && reply.Threw?
      else if HasConflict(q, Granted(reservation)) then
        && reply.RejectedReply? && reply.conflict in q.bookings
        && Conflicts(q.bookings[reply.conflict], Granted(reservation))
        && q' == Settle(q, ticket.id, REJECTED, false,
                        Attempt(ticket.id, ticket.sequence, attempt.startedAt, attempt.completedAt,
                                Rejected(reply.conflict)))
      else
        && reply.ConfirmedReply?
        && q' == Book(Settle(q, ticket.id, CONFIRMED, false, attempt), reservation.id, BookingOf(reservation))
    case Reject(item, attempt) => Settles(q, TicketOf(item), REJECTED, false, attempt, q', reply)
    case Release(item, attempt) => Settles(q, TicketOf(item), REQUESTED, true, attempt, q', reply)
    case Fail(item, attempt) => Settles(q, TicketOf(item), FAILED, true, attempt, q', reply)
  }

  ghost predicate ClaimAnswer(q: State, input: ClaimInput, head: Option<RequestId>, q': State, reply: Reply) {
    match head
    case None => NothingEligible(q, input, {}) && q' == q && reply == Item(None)
    case Some(id) =>
      && IsHead(q, id, input, {}) && q' == ClaimHead(q, id, input)
      && reply == Item(if LeaseBudgetSpent(q.rows[id], input) then None else Some(TicketFor(id, q.rows[id], input)))
  }

  ghost predicate Settles(q: State, ticket: Ticket, status: Status, bump: bool, attempt: Attempt, q': State,
                          reply: Reply)
  {
    if Owns(q, ticket) then q' == Settle(q, ticket.id, status, bump, attempt) && reply.Closed?
    else q' == q && reply.Threw?
  }

  // ---------- the in-memory adapter ----------

  /** Every call of the in-memory repository answers so. */
  method ServeInMemory(repository: WorkRepository, call: PortCall) returns (reply: Reply)
    requires repository.store.Valid()
    modifies repository.store
    ensures repository.store.Valid()
    ensures Answers(old(repository.store.View()), call, repository.store.View(), reply)
  {
    match call
    case Claim(input) =>
      var item, head := repository.ClaimNextPendingReservationRequest(input);
      reply := Item(if item.None? then None else Some(TicketOf(item.value)));
      assert ClaimAnswer(old(repository.store.View()), input, head, repository.store.View(), reply);
    case Renew(item, at, expiresAt) =>
      var renewed := repository.HeartbeatClaimedReservationRequest(item, at, expiresAt);
      reply := Renewed(renewed);
    case Confirm(item, reservation, attempt) =>
      var confirmed := repository.ConfirmClaimedReservationRequest(item, reservation, attempt);
      reply := if confirmed.Err? then Threw
               else if confirmed.value.ConfirmedResult? then ConfirmedReply
               else RejectedReply(confirmed.value.attempt.outcome.conflictingReservationId);
    case Reject(item, attempt) =>
      var rejected := repository.RejectClaimedReservationRequest(item, attempt);
      reply := if rejected.Ok? then Closed else Threw;
    case Release(item, attempt) =>
      var released := repository.ReleaseClaimedReservationRequestForRetry(item, attempt);
      reply := if released.Ok? then Closed else Threw;
    case Fail(item, attempt) =>
      var failed := repository.FailClaimedReservationRequest(item, attempt);
      reply := if failed.Ok? then Closed else Threw;
  }

  // ---------- the Postgres adapter ----------

  function PgSettles(db: P.Db, ticket: Ticket, status: Status, bump: bool, attempt: Attempt): (P.Db, Reply) {
    var settled := P.SettleTx(db, ticket, status, bump, attempt);
    if settled.Some? then (settled.value, Closed) else (db, Threw)
  }

  /** The same calls as transactions, with nothing in between: a confirm that meets the seat
      constraint looks the conflict up and rejects. */
  ghost predicate PgAnswers(catalog: Catalog, db: P.Db, call: PortCall, db': P.Db, reply: Reply) {
    match call
    case Claim(input) =>
      || (P.ClaimQuery(db, input, {}, None) && db' == db && reply == Item(None))
      || exists id | id in db.requests ::
           P.ClaimQuery(db, input, {}, Some(id)) && db' == P.ClaimTx(db, input, id).0
           && reply == Item(P.ClaimTx(db, input, id).1)
    case Renew(item, at, expiresAt) =>
      var (renewed, done) := P.HeartbeatTx(db, TicketOf(item), at, expiresAt);
      db' == renewed && reply == Renewed(done)
    case Confirm(item, reservation, attempt) =>
      (match P.ConfirmTx(catalog, db, TicketOf(item), reservation, attempt)
       case Committed(committed) => db' == committed && reply.ConfirmedReply?
       case OtherFailure => db' == db && reply.Threw?
       case SeatConstraint =>
         exists found ::
           && P.LookupQuery(db, reservation.screeningId, SeatSet(reservation.seatIds), found)
           && if found.None? then db' == db && reply.Threw?
              else
                var (settled, answer) := PgSettles(
                  db, TicketOf(item), REJECTED, false,
                  Attempt(item.reservationRequest.id, item.sequence, attempt.startedAt, attempt.completedAt,
                          Rejected(found.value)));
                db' == settled && reply == if answer.Closed? then RejectedReply(found.value) else Threw)
    case Reject(item, attempt) => (db', reply) == PgSettles(db, TicketOf(item), REJECTED, false, attempt)
    case Release(item, attempt) => (db', reply) == PgSettles(db, TicketOf(item), REQUESTED, true, attempt)
    case Fail(item, attempt) => (db', reply) == PgSettles(db, TicketOf(item), FAILED, true, attempt)
  }

  /** What the foreign keys and unique constraints ask of a call that passes its ownership check. The
      maps of the in-memory store ask nothing. */
  ghost predicate Fits(catalog: Catalog, q: State, call: PortCall) {
    match call
    case Claim(_) => true
    case Renew(_, _, _) => true
    case Confirm(item, reservation, attempt) =>
      Owns(q, TicketOf(item)) && reservation.id !in q.bookings ==> ConfirmFits(catalog, q, reservation, attempt)
    case Reject(item, attempt) => Owns(q, TicketOf(item)) ==> V.RefersToKnown(q, q.bookings.Keys, attempt)
    case Release(item, attempt) => Owns(q, TicketOf(item)) ==> V.RefersToKnown(q, q.bookings.Keys, attempt)
    case Fail(item, attempt) => Owns(q, TicketOf(item)) ==> V.RefersToKnown(q, q.bookings.Keys, attempt)
  }

  ghost predicate ConfirmFits(catalog: Catalog, q: State, reservation: Reservation, attempt: Attempt) {
    && V.RowFits(catalog, q, reservation)
    && if HasConflict(q, Granted(reservation)) then exists k :: V.FirstSold(q, reservation, k)
       else V.SeatsFit(catalog, reservation) && V.RefersToKnown(q, q.bookings.Keys + {reservation.id}, attempt)
  }

  /** Calls as the processor makes them: attempts about the item's own request, naming reservations
      that exist, and a reservation built from an item that the stored request still matches. */
  ghost predicate ProperCall(catalog: Catalog, q: State, call: PortCall) {
    match call
    case Claim(_) => true
    case Renew(_, _, _) => true
    case Confirm(item, reservation, attempt) =>
      var ticket := TicketOf(item);
      && attempt.requestId == ticket.id == reservation.reservationRequestId
      && attempt.outcome == Confirmed(reservation.id) && NoDuplicates(reservation.seatIds)
      && Granted(reservation) == ticket.demand && WellPlaced(catalog, ticket.demand)
      && (ticket.id in q.rows ==> q.rows[ticket.id].demand == ticket.demand)
    case Reject(item, attempt) =>
      && attempt.requestId == item.reservationRequest.id && attempt.outcome.Rejected?
      && attempt.outcome.conflictingReservationId in q.bookings
    case Release(item, attempt) => attempt.requestId == item.reservationRequest.id && attempt.outcome.UnexpectedError?
    case Fail(item, attempt) => attempt.requestId == item.reservationRequest.id && attempt.outcome.UnexpectedError?
  }

  /** A request under work has no reservation yet. */
  ghost predicate OpenHasNoBooking(q: State) {
    forall rid | rid in q.bookings ::
      q.bookings[rid].requestId in q.rows && q.rows[q.bookings[rid].requestId].status.CONFIRMED?
  }

  /** Calls as the processor makes them always fit. */
  lemma ProperCallFits(catalog: Catalog, q: State, call: PortCall)
    requires ProperCall(catalog, q, call) && OpenHasNoBooking(q)
    ensures Fits(catalog, q, call)
  {
    if call.Confirm? { V.FirstSoldMeansConflict(q, call.reservation); }
    hide HasConflict, V.FirstSold;
  }

  lemma PgSettlesAnswers(catalog: Catalog, db: P.Db, ticket: Ticket, status: Status, bump: bool, attempt: Attempt)
    requires P.SchemaOk(catalog, db)
    ensures var (db', reply), q := PgSettles(db, ticket, status, bump, attempt), P.View(db);
            && P.SchemaOk(catalog, db')
            && (Settles(q, ticket, status, bump, attempt, P.View(db'), reply)
                <==> (Owns(q, ticket) ==> V.RefersToKnown(q, q.bookings.Keys, attempt)))
            && (Owns(q, ticket) && !V.RefersToKnown(q, q.bookings.Keys, attempt) ==> reply.Threw? && db' == db)
  {
    hide P.SchemaOk, Settle;
    var q := P.View(db);
    assert q.rows.Keys == db.requests.Keys && q.bookings.Keys == db.reservations.Keys;
    if P.AttemptFits(db.requests, db.reservations, attempt) {
      V.SettleTxView(db, ticket, status, bump, attempt);
      if P.SettleTx(db, ticket, status, bump, attempt).Some? {
        S.SettleKeepsSchema(catalog, db, ticket, status, bump, attempt);
      }
    } else {
      assert P.SettleTx(db, ticket, status, bump, attempt).None?;
    }
    hide P.View;
  }

  /** A confirm stopped by the seat constraint, then rejected. */
  lemma PgRejectsConfirm(catalog: Catalog, db: P.Db, call: PortCall, db': P.Db, reply: Reply)
    requires P.SchemaOk(catalog, db) && call.Confirm? && PgAnswers(catalog, db, call, db', reply)
    requires P.ConfirmTx(catalog, db, TicketOf(call.item), call.reservation, call.attempt).SeatConstraint?
    requires Owns(P.View(db), TicketOf(call.item)) && HasConflict(P.View(db), Granted(call.reservation))
    requires call.reservation.id !in P.View(db).bookings
    ensures Answers(P.View(db), call, P.View(db'), reply) && P.SchemaOk(catalog, db')
  {
    hide P.SchemaOk, P.ConfirmTx, P.View, HasConflict, SeatSet, Owns;
    var ticket, reservation, attempt := TicketOf(call.item), call.reservation, call.attempt;
    var found :| P.LookupQuery(db, reservation.screeningId, SeatSet(reservation.seatIds), found)
                 && if found.None? then db' == db && reply.Threw?
                    else
                      var (settled, answer) := PgSettles(
                        db, ticket, REJECTED, false,
                        Attempt(ticket.id, ticket.sequence, attempt.startedAt, attempt.completedAt,
                                Rejected(found.value)));
                      db' == settled && reply == if answer.Closed? then RejectedReply(found.value) else Threw;
    V.LookupFindsConflict(catalog, db, Granted(reservation), found);
    hide P.LookupQuery, Conflicts, PgSettles;
    PgSettlesAnswers(catalog, db, ticket, REJECTED, false,
                     Attempt(ticket.id, ticket.sequence, attempt.startedAt, attempt.completedAt,
                             Rejected(found.value)));
    assert ticket.id in P.View(db).rows by { OwnsRow(P.View(db), ticket); }
  }

  lemma OwnsRow(q: State, ticket: Ticket)
    requires Owns(q, ticket)
    ensures ticket.id in q.rows
  {
  }

  lemma PgConfirmAnswers(catalog: Catalog, db: P.Db, call: PortCall, db': P.Db, reply: Reply)
    requires P.SchemaOk(catalog, db) && call.Confirm? && PgAnswers(catalog, db, call, db', reply)
    ensures P.SchemaOk(catalog, db')
    ensures Answers(P.View(db), call, P.View(db'), reply) <==> Fits(catalog, P.View(db), call)
    ensures !Fits(catalog, P.View(db), call) ==> reply.Threw? && db' == db
  {
    var ticket, reservation, attempt := TicketOf(call.item), call.reservation, call.attempt;
    V.ConfirmOutcomes(catalog, db, ticket, reservation, attempt);
    V.FirstSoldMeansConflict(P.View(db), reservation);
    hide P.SchemaOk, P.View, HasConflict, Owns, V.FirstSold, V.SeatsFit, V.RefersToKnown, SeatSet;
    match P.ConfirmTx(catalog, db, ticket, reservation, attempt)
    case Committed(_) =>
      V.CommitView(catalog, db, ticket, reservation, attempt);
      S.ConfirmKeepsSchema(catalog, db, ticket, reservation, attempt);
      hide P.ConfirmTx, Settle;
    case OtherFailure =>
      hide P.ConfirmTx, Settle;
    case SeatConstraint =>
      PgRejectsConfirm(catalog, db, call, db', reply);
      hide P.ConfirmTx, Settle;
  }

  /** A call on Postgres answers as the specification says exactly when it fits; one that does not fit
      is refused and changes nothing. */
  lemma PgServes(catalog: Catalog, db: P.Db, call: PortCall, db': P.Db, reply: Reply)
    requires P.SchemaOk(catalog, db) && PgAnswers(catalog, db, call, db', reply)
    ensures P.SchemaOk(catalog, db')
    ensures Answers(P.View(db), call, P.View(db'), reply) <==> Fits(catalog, P.View(db), call)
    ensures !Fits(catalog, P.View(db), call) ==> reply.Threw? && db' == db
  {
    hide P.SchemaOk, Settles, PgSettles, V.RefersToKnown, Owns, ConfirmFits;
    match call
    case Confirm(_, _, _) => PgConfirmAnswers(catalog, db, call, db', reply);
    case Reject(item, attempt) => PgSettlesAnswers(catalog, db, TicketOf(item), REJECTED, false, attempt);
    case Release(item, attempt) => PgSettlesAnswers(catalog, db, TicketOf(item), REQUESTED, true, attempt);
    case Fail(item, attempt) => PgSettlesAnswers(catalog, db, TicketOf(item), FAILED, true, attempt);
    case Renew(item, at, expiresAt) =>
      V.HeartbeatTxView(db, TicketOf(item), at, expiresAt);
      if P.HoldsRow(db, TicketOf(item)) {
        S.RequestUpdateKeepsSchema(catalog, db, TicketOf(item).id, db'.requests[TicketOf(item).id]);
      }
    case Claim(input) =>
      PgClaimAnswers(catalog, db, input, db', reply);
  }

  lemma PgClaimAnswers(catalog: Catalog, db: P.Db, input: ClaimInput, db': P.Db, reply: Reply)
    requires P.SchemaOk(catalog, db) && PgAnswers(catalog, db, PortCall.Claim(input), db', reply)
    ensures Answers(P.View(db), PortCall.Claim(input), P.View(db'), reply) && P.SchemaOk(catalog, db')
  {
    hide P.SchemaOk;
    if P.ClaimQuery(db, input, {}, None) && db' == db && reply == Item(None) {
      V.ClaimQueryFindsHead(db, input, {}, None);
      assert ClaimAnswer(P.View(db), input, None, P.View(db'), reply);
    } else {
      var id :| id in db.requests && P.ClaimQuery(db, input, {}, Some(id)) && db' == P.ClaimTx(db, input, id).0
                && reply == Item(P.ClaimTx(db, input, id).1);
      V.ClaimQueryFindsHead(db, input, {}, Some(id));
      V.ClaimTxView(db, input, id);
      S.ClaimKeepsSchema(catalog, db, input, id);
      assert ClaimAnswer(P.View(db), input, Some(id), P.View(db'), reply);
    }
  }

  // ---------- agreement ----------

  predicate SameAttempt(a: Attempt, b: Attempt) {
    a == b || (a.outcome.Rejected? && b.outcome.Rejected? && a.(outcome := b.outcome) == b)
  }

  predicate SameLog(a: seq<Attempt>, b: seq<Attempt>) {
    |a| == |b| && forall i | 0 <= i < |a| :: SameAttempt(a[i], b[i])
  }

  /** Equal but for which reservation a rejection names. */
  ghost predicate Same(a: State, b: State) {
    && a.rows == b.rows && a.bookings == b.bookings
    && forall id :: SameLog(LogOf(a.log, id), LogOf(b.log, id))
  }

  predicate SameReply(a: Reply, b: Reply) {
    a == b || (a.RejectedReply? && b.RejectedReply?)
  }

  lemma AppendSame(a: map<RequestId, seq<Attempt>>, b: map<RequestId, seq<Attempt>>, x: Attempt, y: Attempt)
    requires SameAttempt(x, y) && forall id :: SameLog(LogOf(a, id), LogOf(b, id))
    ensures forall id :: SameLog(LogOf(Append(a, x), id), LogOf(Append(b, y), id))
  {
    forall id ensures SameLog(LogOf(Append(a, x), id), LogOf(Append(b, y), id)) {
      assert SameLog(LogOf(a, id), LogOf(b, id));
    }
  }

  lemma HeadIsUnique(q: State, a: RequestId, b: RequestId, input: ClaimInput)
    requires I.SequencesUnique(q)
    requires IsHead(q, a, input, {}) && IsHead(q, b, input, {})
    ensures a == b
  {
  }

  /** The same call on states that look the same gives the same answer and leaves the same state. */
  lemma SameCallSameAnswer(q: State, r: State, call: PortCall, q': State, r': State, x: Reply, y: Reply)
    requires Same(q, r) && Answers(q, call, q', x) && Answers(r, call, r', y)
    requires I.SequencesUnique(q)
    ensures Same(q', r') && SameReply(x, y)
    ensures q'.rows.Keys == q.rows.Keys && forall id | id in q.rows :: q'.rows[id].sequence == q.rows[id].sequence
  {
    match call
    case Claim(input) =>
      SameClaims(q, r, input, q', r', x, y);
    case Confirm(item, reservation, attempt) =>
      if Owns(q, TicketOf(item)) && reservation.id !in q.bookings {
        if HasConflict(q, Granted(reservation)) {
          AppendSame(q.log, r.log,
                     Attempt(TicketOf(item).id, item.sequence, attempt.startedAt, attempt.completedAt,
                             Rejected(x.conflict)),
                     Attempt(TicketOf(item).id, item.sequence, attempt.startedAt, attempt.completedAt,
                             Rejected(y.conflict)));
        } else {
          AppendSame(q.log, r.log, attempt, attempt);
        }
      }
    case Renew(_, _, _) =>
    case Reject(_, attempt) => AppendSame(q.log, r.log, attempt, attempt);
    case Release(_, attempt) => AppendSame(q.log, r.log, attempt, attempt);
    case Fail(_, attempt) => AppendSame(q.log, r.log, attempt, attempt);
  }

  lemma SameHead(q: State, r: State, id: RequestId, input: ClaimInput)
    requires Same(q, r) && id in q.rows
    ensures Same(ClaimHead(q, id, input), ClaimHead(r, id, input))
  {
    var timeout := Attempt(id, q.rows[id].sequence, input.claimedAt, input.claimedAt, LeaseTimeout);
    AppendSame(q.log, r.log, timeout, timeout);
  }

  lemma SameClaims(q: State, r: State, input: ClaimInput, q': State, r': State, x: Reply, y: Reply)
    requires Same(q, r)
    requires Answers(q, PortCall.Claim(input), q', x) && Answers(r, PortCall.Claim(input), r', y)
    requires I.SequencesUnique(q)
    ensures Same(q', r') && SameReply(x, y)
    ensures q'.rows.Keys == q.rows.Keys && forall id | id in q.rows :: q'.rows[id].sequence == q.rows[id].sequence
  {
    var m :| ClaimAnswer(q, input, m, q', x);
    var n :| ClaimAnswer(r, input, n, r', y);
    hide Answers, Same, IsHead, NothingEligible, ClaimHead, LeaseBudgetSpent, TicketFor, I.SequencesUnique;
    SameRows(q, r);
    SameHeads(q, r, input, m, n);
    if m.Some? {
      HeadIsRow(q, m.value, input);
      SameHead(q, r, m.value, input);
      HeadKeepsSequences(q, m.value, input);
    }
  }

  lemma SameRows(q: State, r: State)
    requires Same(q, r)
    ensures q.rows == r.rows
  {
  }

  lemma HeadIsRow(q: State, id: RequestId, input: ClaimInput)
    requires IsHead(q, id, input, {})
    ensures id in q.rows
  {
  }

  lemma HeadKeepsSequences(q: State, id: RequestId, input: ClaimInput)
    requires id in q.rows
    ensures var q' := ClaimHead(q, id, input);
            && q'.rows.Keys == q.rows.Keys
            && forall other | other in q.rows :: q'.rows[other].sequence == q.rows[other].sequence
  {
  }

  lemma SameHeads(q: State, r: State, input: ClaimInput, m: Option<RequestId>, n: Option<RequestId>)
    requires q.rows == r.rows
    requires I.SequencesUnique(q)
    requires if m.Some? then IsHead(q, m.value, input, {}) else NothingEligible(q, input, {})
    requires if n.Some? then IsHead(r, n.value, input, {}) else NothingEligible(r, input, {})
    ensures m == n
  {
    if m.Some? && n.Some? {
      assert IsHead(q, n.value, input, {});
      HeadIsUnique(q, m.value, n.value, input);
    }
  }

  /** A serial run of port calls. */
  ghost predicate Serves(trace: seq<State>, calls: seq<PortCall>, replies: seq<Reply>) {
    && |trace| == |calls| + 1 && |replies| == |calls|
    && forall i | 0 <= i < |calls| :: Answers(trace[i], calls[i], trace[i + 1], replies[i])
  }

  /** Two adapters that start alike and are given the same calls answer alike to the end. */
  lemma {:induction false} AdaptersAgree(
      a: seq<State>, b: seq<State>, calls: seq<PortCall>, x: seq<Reply>, y: seq<Reply>, i: nat)
    requires Serves(a, calls, x) && Serves(b, calls, y) && Same(a[0], b[0]) && i <= |calls|
    requires I.SequencesUnique(a[0])
    ensures Same(a[i], b[i]) && forall k | 0 <= k < i :: SameReply(x[k], y[k])
    ensures a[i].rows.Keys == a[0].rows.Keys
         && forall id | id in a[0].rows :: a[i].rows[id].sequence == a[0].rows[id].sequence
  {
    hide Answers, Same;
    if i > 0 {
      AdaptersAgree(a, b, calls, x, y, i - 1);
      SameCallSameAnswer(a[i - 1], b[i - 1], calls[i - 1], a[i], b[i], x[i - 1], y[i - 1]);
    }
  }

  /** A serial run of transactions: each call has its answer, with nothing in between. */
  ghost predicate PgServesRun(catalog: Catalog, dbs: seq<P.Db>, calls: seq<PortCall>, replies: seq<Reply>) {
    && |dbs| == |calls| + 1 && |replies| == |calls| && P.SchemaOk(catalog, dbs[0])
    && forall i | 0 <= i < |calls| :: PgAnswers(catalog, dbs[i], calls[i], dbs[i + 1], replies[i])
  }

  lemma {:induction false} PgRunKeepsSchema(
      catalog: Catalog, dbs: seq<P.Db>, calls: seq<PortCall>, replies: seq<Reply>, i: nat)
    requires PgServesRun(catalog, dbs, calls, replies) && i <= |calls|
    ensures P.SchemaOk(catalog, dbs[i])
  {
    hide P.SchemaOk, PgAnswers, Fits, Answers;
    if i > 0 {
      PgRunKeepsSchema(catalog, dbs, calls, replies, i - 1);
      PgServes(catalog, dbs[i - 1], calls[i - 1], dbs[i], replies[i - 1]);
    }
  }

  lemma AnswersKeepSequences(q: State, call: PortCall, q': State, reply: Reply)
    requires Answers(q, call, q', reply) && I.SequencesUnique(q)
    ensures I.SequencesUnique(q')
  {
    hide Answers;
    SameCallSameAnswer(q, q, call, q', q', reply, reply);
  }

  lemma FitsSame(catalog: Catalog, q: State, r: State, call: PortCall)
    requires Same(q, r)
    ensures Fits(catalog, q, call) <==> Fits(catalog, r, call)
  {
    hide SeatsOf, SoldIn, SeatSet;
    if call.Confirm? {
      assert forall k: int :: V.FirstSold(q, call.reservation, k) <==> V.FirstSold(r, call.reservation, k);
      assert HasConflict(q, Granted(call.reservation)) <==> HasConflict(r, Granted(call.reservation));
    }
  }

  /** A call that does not fit is not refused in memory. */
  lemma MisfitIsServed(catalog: Catalog, q: State, call: PortCall, q': State, reply: Reply)
    requires Answers(q, call, q', reply) && !Fits(catalog, q, call)
    ensures !reply.Threw?
  {
    hide HasConflict, Conflicts, Owns;
  }

  /** One call made to both adapters, on states that look the same. */
  lemma CallAgreesIff(catalog: Catalog, q: State, q': State, db: P.Db, db': P.Db, call: PortCall, x: Reply, y: Reply)
    requires P.SchemaOk(catalog, db) && PgAnswers(catalog, db, call, db', y) && Answers(q, call, q', x)
    requires Same(q, P.View(db)) && I.SequencesUnique(q)
    ensures SameReply(x, y) <==> Fits(catalog, q, call)
    ensures Fits(catalog, q, call) ==> Same(q', P.View(db'))
  {
    hide P.SchemaOk, PgAnswers, Fits, Answers, Same, P.View;
    PgServes(catalog, db, call, db', y);
    FitsSame(catalog, q, P.View(db), call);
    if Fits(catalog, q, call) {
      SameCallSameAnswer(q, P.View(db), call, q', P.View(db'), x, y);
    } else {
      MisfitIsServed(catalog, q, call, q', x);
    }
  }

  /** Any serial run against Postgres and any run of the same calls in memory, from states that look
      the same, give the same answers as long as, and only as long as, the calls fit the schema; and
      as long as they do the states look the same. */
  lemma {:induction false} PostgresAgreesIff(
      catalog: Catalog, memory: seq<State>, dbs: seq<P.Db>, calls: seq<PortCall>, x: seq<Reply>, y: seq<Reply>, i: nat)
    requires Serves(memory, calls, x) && PgServesRun(catalog, dbs, calls, y) && i <= |calls|
    requires Same(memory[0], P.View(dbs[0])) && I.SequencesUnique(memory[0])
    ensures I.SequencesUnique(memory[i])
    ensures (forall k | 0 <= k < i :: SameReply(x[k], y[k]))
        <==> forall k | 0 <= k < i :: Fits(catalog, memory[k], calls[k])
    ensures (forall k | 0 <= k < i :: Fits(catalog, memory[k], calls[k])) ==> Same(memory[i], P.View(dbs[i]))
  {
    hide P.SchemaOk, PgAnswers, Fits, Answers, Same, P.View, I.SequencesUnique, SameReply;
    if i > 0 {
      PostgresAgreesIff(catalog, memory, dbs, calls, x, y, i - 1);
      AnswersKeepSequences(memory[i - 1], calls[i - 1], memory[i], x[i - 1]);
      if forall k | 0 <= k < i - 1 :: Fits(catalog, memory[k], calls[k]) {
        PgRunKeepsSchema(catalog, dbs, calls, y, i - 1);
        CallAgreesIff(catalog, memory[i - 1], memory[i], dbs[i - 1], dbs[i], calls[i - 1], x[i - 1], y[i - 1]);
      }
    }
  }

  /** No call leaves a request under work that already has a reservation. */
  lemma AnswersKeepOpen(catalog: Catalog, q: State, call: PortCall, q': State, reply: Reply)
    requires Answers(q, call, q', reply) && ProperCall(catalog, q, call) && OpenHasNoBooking(q)
    ensures OpenHasNoBooking(q')
  {
    hide HasConflict, Conflicts, WellPlaced, SeatSet;
    if call.Claim? {
      var head :| ClaimAnswer(q, call.input, head, q', reply);
    }
  }

  lemma {:induction false} ProperRunFits(catalog: Catalog, memory: seq<State>, calls: seq<PortCall>, x: seq<Reply>,
                                         i: nat)
    requires Serves(memory, calls, x) && i <= |calls| && OpenHasNoBooking(memory[0])
    requires forall k | 0 <= k < i :: ProperCall(catalog, memory[k], calls[k])
    ensures OpenHasNoBooking(memory[i]) && forall k | 0 <= k < i :: Fits(catalog, memory[k], calls[k])
  {
    hide Fits, Answers, ProperCall, OpenHasNoBooking;
    if i > 0 {
      ProperRunFits(catalog, memory, calls, x, i - 1);
      ProperCallFits(catalog, memory[i - 1], calls[i - 1]);
      AnswersKeepOpen(catalog, memory[i - 1], calls[i - 1], memory[i], x[i - 1]);
    }
  }

  /** So for calls as the processor makes them the two adapters agree to the end. */
  lemma PostgresAgreesWithMemory(
      catalog: Catalog, memory: seq<State>, dbs: seq<P.Db>, calls: seq<PortCall>, x: seq<Reply>, y: seq<Reply>, i: nat)
    requires Serves(memory, calls, x) && PgServesRun(catalog, dbs, calls, y) && i <= |calls|
    requires Same(memory[0], P.View(dbs[0])) && I.SequencesUnique(memory[0]) && OpenHasNoBooking(memory[0])
    requires forall k | 0 <= k < |calls| :: ProperCall(catalog, memory[k], calls[k])
    ensures Same(memory[i], P.View(dbs[i])) && forall k | 0 <= k < i :: SameReply(x[k], y[k])
    ensures P.SchemaOk(catalog, dbs[i])
  {
    hide P.SchemaOk, OpenHasNoBooking, PgAnswers, ProperCall, Answers, Same, Fits, I.SequencesUnique;
    ProperRunFits(catalog, memory, calls, x, i);
    PostgresAgreesIff(catalog, memory, dbs, calls, x, y, i);
    PgRunKeepsSchema(catalog, dbs, calls, y, i);
  }
}
