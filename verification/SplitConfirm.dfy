/** The in-memory confirm awaits its conflict lookup: the check and the writes are two steps, and
    other work may run in between. What the writes then do is `FinishConfirm` of the repository: a sale,
    or the rejection that the lookup called for, whatever has happened meanwhile. */
module SplitConfirm {
  import opened Domain
  import opened Queue
  import opened Protocol
  import opened Safety

  /** The check before the await: owned, new reservation id, nothing in the way. */
  ghost predicate Checked(q: State, ticket: Ticket, rid: ReservationId) {
    Owns(q, ticket) && rid !in q.bookings && !HasConflict(q, ticket.demand)
  }

  /** Whatever happened during the await, the writes keep seats disjoint exactly when nobody else
      sold one of these seats meanwhile. */
  lemma FinishIsSafeIff(q: State, ticket: Ticket, rid: ReservationId, confirmedAt: int, attempt: Attempt)
    requires Disjoint(q) && ticket.id in q.rows && rid !in q.bookings
    ensures Disjoint(Sell(q, ticket, rid, confirmedAt, attempt)) <==> !HasConflict(q, ticket.demand)
  {
    var q' := Sell(q, ticket, rid, confirmedAt, attempt);
    if HasConflict(q, ticket.demand) {
      var other :| other in q.bookings && Conflicts(q.bookings[other], ticket.demand);
      assert Conflicts(q'.bookings[other], q'.bookings[rid].demand);
    } else {
      forall other | other in q.bookings
        ensures !Conflicts(q'.bookings[other], ticket.demand) && !Conflicts(q'.bookings[rid], q.bookings[other].demand)
      {
        assert q.bookings[other].demand.seats * ticket.demand.seats
            == ticket.demand.seats * q.bookings[other].demand.seats;
      }
    }
  }

  // ---------- one confirm in flight ----------

  /** What can run beside the one item a worker has in flight. */
  datatype Aside =
    | HeartbeatAside(ticket: Ticket, at: int, expiresAt: int)
    | SaveAside(id: RequestId, demand: Demand, sequence: nat)
    | ReadAside

  function After(q: State, asides: seq<Aside>): State
    decreases |asides|
  {
    if asides == [] then q
    else
      var before := After(q, asides[..|asides| - 1]);
      match asides[|asides| - 1]
      case HeartbeatAside(ticket, at, expiresAt) => Heartbeat(before, ticket, at, expiresAt)
      case SaveAside(id, demand, sequence) =>
        if id in before.rows then before else Enqueue(before, id, demand, sequence)
      case ReadAside => before
  }

  lemma AfterOneMore(q: State, asides: seq<Aside>, aside: Aside)
    ensures After(q, asides + [aside]) == After(After(q, asides), [aside])
  {
    assert (asides + [aside])[..|asides|] == asides;
    assert [aside][..0] == [] && After(After(q, asides), []) == After(q, asides);
  }

  lemma {:induction false} OwnedSurvivesAwait(q: State, asides: seq<Aside>, ticket: Ticket)
    requires Owns(q, ticket)
    ensures Owns(After(q, asides), ticket) && After(q, asides).bookings == q.bookings
    decreases |asides|
  {
    if asides != [] {
      OwnedSurvivesAwait(q, asides[..|asides| - 1], ticket);
    }
  }

  /** With one item in flight the check is still true when the writes come: the worker still owns
      its PROCESSING claim, and the split confirm is the atomic one made at commit time. */
  lemma CheckSurvivesAwait(q: State, asides: seq<Aside>, ticket: Ticket, rid: ReservationId)
    requires Checked(q, ticket, rid)
    ensures Checked(After(q, asides), ticket, rid) && After(q, asides).bookings == q.bookings
  {
    OwnedSurvivesAwait(q, asides, ticket);
  }

  lemma OneInFlightIsSafe(q: State, asides: seq<Aside>, ticket: Ticket, rid: ReservationId, confirmedAt: int,
                          attempt: Attempt)
    requires Disjoint(q) && Checked(q, ticket, rid)
    ensures var mid := After(q, asides);
            && Owns(mid, ticket) && mid.rows[ticket.id].status.PROCESSING?
            && Disjoint(Sell(mid, ticket, rid, confirmedAt, attempt))
  {
    CheckSurvivesAwait(q, asides, ticket, rid);
    FinishIsSafeIff(After(q, asides), ticket, rid, confirmedAt, attempt);
  }

  // ---------- two confirms in flight ----------

  /** Two confirms whose lookups both came back empty before either wrote sell a seat twice exactly
      when their demands overlap. */
  lemma TwoInFlightAreSafeIff(q: State, a: Ticket, b: Ticket, rid: ReservationId, sid: ReservationId,
                              confirmedAt: int, attemptA: Attempt, attemptB: Attempt)
    requires Disjoint(q) && Checked(q, a, rid) && Checked(q, b, sid) && rid != sid && a.id != b.id
    ensures var first := Sell(q, a, rid, confirmedAt, attemptA);
            Disjoint(Sell(first, b, sid, confirmedAt, attemptB))
            <==> !Overlap(a.demand, b.demand)
  {
    var first := Sell(q, a, rid, confirmedAt, attemptA);
    FinishIsSafeIff(q, a, rid, confirmedAt, attemptA);
    FinishIsSafeIff(first, b, sid, confirmedAt, attemptB);
    if Conflicts(first.bookings[rid], b.demand) {
      assert HasConflict(first, b.demand);
    } else {
      forall other | other in first.bookings ensures !Conflicts(first.bookings[other], b.demand) {
        if other != rid { assert other in q.bookings; }
      }
    }
  }

  function Open(seat: SeatId, sequence: nat, token: ClaimToken): Row {
    Row(Demand(ProviderId(0), ScreeningId(0), {seat}, UserId("u")), PROCESSING, sequence, 0, 0,
        Some(Claim(WorkerId("w"), token, 0, 10, 0)))
  }

  function Holding(id: RequestId, row: Row, token: ClaimToken): Ticket {
    Ticket(id, row.demand, row.sequence, WorkerId("w"), token, 0, 10, 0, 0)
  }

  /** Such a pair exists: the in-memory adapter alone does not prevent a double sale. */
  lemma TwoInFlightCanSellTwice() returns (q: State, a: Ticket, b: Ticket)
    ensures Disjoint(q) && Checked(q, a, ReservationId(0)) && Checked(q, b, ReservationId(1)) && a.id != b.id
    ensures forall x: Attempt, y: Attempt, at: int ::
              !Disjoint(Sell(Sell(q, a, ReservationId(0), at, x), b, ReservationId(1), at, y))
  {
    var seat := SeatId(0);
    var rowA, rowB := Open(seat, 1, ClaimToken(0)), Open(seat, 2, ClaimToken(1));
    q := State(map[RequestId(0) := rowA, RequestId(1) := rowB], map[], map[]);
    a, b := Holding(RequestId(0), rowA, ClaimToken(0)), Holding(RequestId(1), rowB, ClaimToken(1));
    forall x: Attempt, y: Attempt, at: int
      ensures !Disjoint(Sell(Sell(q, a, ReservationId(0), at, x), b, ReservationId(1), at, y))
    {
      assert seat in a.demand.seats * b.demand.seats;
      TwoInFlightAreSafeIff(q, a, b, ReservationId(0), ReservationId(1), at, x, y);
    }
  }

  // ---------- fencing ----------

  /** What can run during the await when several items are in flight. Calls that check ownership
      close a request only if they own it; the writes of another split confirm do not check. */
  datatype Meanwhile =
    | Renewal(ticket: Ticket, at: int, expiresAt: int)
    | Arrival(id: RequestId, demand: Demand, sequence: nat)
    | Reading
    | Claiming(input: ClaimInput, head: Option<RequestId>)
    | Closing(ticket: Ticket, status: Status, transientFailure: bool, attempt: Attempt)
    | LateSale(ticket: Ticket, rid: ReservationId, confirmedAt: int, attempt: Attempt)
    | LateRejection(ticket: Ticket, attempt: Attempt)

  /** Tokens are fresh, so nobody else acts under the waiting worker's token but its own heartbeat. */
  ghost predicate CanHappen(q: State, waiting: Ticket, m: Meanwhile) {
    match m
    case Renewal(_, _, _) => true
    case Arrival(id, _, _) => id !in q.rows
    case Reading => true
    case Claiming(input, head) =>
      && input.claimToken != waiting.token
      && if head.Some? then IsHead(q, head.value, input, {}) else NothingEligible(q, input, {})
    case Closing(ticket, _, _, _) => ticket.token != waiting.token && Owns(q, ticket)
    case LateSale(ticket, _, _, _) => ticket.token != waiting.token && ticket.id in q.rows
    case LateRejection(ticket, _) => ticket.token != waiting.token && ticket.id in q.rows
  }

  ghost function Then(q: State, waiting: Ticket, m: Meanwhile): State
    requires CanHappen(q, waiting, m)
  {
    match m
    case Renewal(ticket, at, expiresAt) => Heartbeat(q, ticket, at, expiresAt)
    case Arrival(id, demand, sequence) => Enqueue(q, id, demand, sequence)
    case Reading => q
    case Claiming(input, head) => if head.None? then q else ClaimHead(q, head.value, input)
    case Closing(ticket, status, transientFailure, attempt) => Settle(q, ticket.id, status, transientFailure, attempt)
    case LateSale(ticket, rid, confirmedAt, attempt) => Sell(q, ticket, rid, confirmedAt, attempt)
    case LateRejection(ticket, attempt) => Settle(q, ticket.id, REJECTED, false, attempt)
  }

  /** `trace[0]` is the queue at the check, `trace[|ms|]` the queue when the writes come. */
  ghost predicate Await(waiting: Ticket, trace: seq<State>, ms: seq<Meanwhile>) {
    && |trace| == |ms| + 1
    && forall i | 0 <= i < |ms| :: CanHappen(trace[i], waiting, ms[i]) && trace[i + 1] == Then(trace[i], waiting, ms[i])
  }

  /** A claim of the request, or the unchecked writes of another confirm of it. */
  predicate TakesAway(m: Meanwhile, id: RequestId) {
    || (m.Claiming? && m.head == Some(id))
    || ((m.LateSale? || m.LateRejection?) && m.ticket.id == id)
  }

  lemma StepOwned(q: State, waiting: Ticket, m: Meanwhile)
    requires CanHappen(q, waiting, m)
    ensures Owns(Then(q, waiting, m), waiting) <==> Owns(q, waiting) && !TakesAway(m, waiting.id)
  {
    hide HasConflict, NothingEligible;
  }

  /** The claim is still owned when the writes come if and only if nobody claimed the request, and no
      other confirm of it was written, during the await. */
  lemma {:induction false} FencedIff(waiting: Ticket, trace: seq<State>, ms: seq<Meanwhile>)
    requires Await(waiting, trace, ms) && Owns(trace[0], waiting)
    ensures Owns(trace[|ms|], waiting) <==> forall i | 0 <= i < |ms| :: !TakesAway(ms[i], waiting.id)
    decreases |ms|
  {
    hide Owns, Then, TakesAway, CanHappen;
    if ms != [] {
      var n := |ms| - 1;
      FencedIff(waiting, trace[..n + 1], ms[..n]);
      StepOwned(trace[n], waiting, ms[n]);
      assert forall i | 0 <= i < n :: ms[..n][i] == ms[i];
    }
  }

  /** No claim reads a clock at or past the expiry the lease has at that moment, and nobody else is
      confirming this request. */
  ghost predicate WithinLease(waiting: Ticket, trace: seq<State>, ms: seq<Meanwhile>)
    requires |trace| == |ms| + 1
  {
    forall i | 0 <= i < |ms| :: LeftAlone(trace[i], waiting, ms[i])
  }

  ghost predicate LeftAlone(q: State, waiting: Ticket, m: Meanwhile) {
    && (m.Claiming? && Owns(q, waiting) ==> m.input.claimedAt < q.rows[waiting.id].claim.value.expiresAt)
    && ((m.LateSale? || m.LateRejection?) ==> m.ticket.id != waiting.id)
  }

  /** Then the confirm is written for a claim its worker still owns. */
  lemma {:induction false} FencedWithinLease(waiting: Ticket, trace: seq<State>, ms: seq<Meanwhile>)
    requires Await(waiting, trace, ms) && Owns(trace[0], waiting) && WithinLease(waiting, trace, ms)
    ensures Owns(trace[|ms|], waiting)
    decreases |ms|
  {
    hide Then, CanHappen, LeftAlone, Owns;
    if ms != [] {
      var n := |ms| - 1;
      FencedWithinLease(waiting, trace[..n + 1], ms[..n]);
      LeaseKeepsAway(trace[n], waiting, ms[n]);
      StepOwned(trace[n], waiting, ms[n]);
    }
  }

  lemma LeaseKeepsAway(q: State, waiting: Ticket, m: Meanwhile)
    requires CanHappen(q, waiting, m) && Owns(q, waiting) && LeftAlone(q, waiting, m)
    ensures !TakesAway(m, waiting.id)
  {
  }

  /** What can be checked at the start: claims read clocks before a deadline that the lease reaches,
      and heartbeats do not shorten it below that deadline. */
  lemma {:induction false} FencedBeforeDeadline(waiting: Ticket, trace: seq<State>, ms: seq<Meanwhile>, deadline: int)
    requires Await(waiting, trace, ms) && Owns(trace[0], waiting)
    requires deadline <= trace[0].rows[waiting.id].claim.value.expiresAt
    requires forall i | 0 <= i < |ms| && ms[i].Claiming? :: ms[i].input.claimedAt < deadline
    requires forall i | 0 <= i < |ms| && ms[i].Renewal? && ms[i].ticket.id == waiting.id :: ms[i].expiresAt >= deadline
    requires forall i | 0 <= i < |ms| && (ms[i].LateSale? || ms[i].LateRejection?) :: ms[i].ticket.id != waiting.id
    ensures Owns(trace[|ms|], waiting) && trace[|ms|].rows[waiting.id].claim.value.expiresAt >= deadline
    decreases |ms|
  {
    if ms != [] {
      var n := |ms| - 1;
      assert forall i | 0 <= i < n :: ms[..n][i] == ms[i];
      FencedBeforeDeadline(waiting, trace[..n + 1], ms[..n], deadline);
      DeadlineStep(trace[n], waiting, ms[n], deadline);
    }
  }

  lemma DeadlineStep(q: State, waiting: Ticket, m: Meanwhile, deadline: int)
    requires CanHappen(q, waiting, m) && Owns(q, waiting) && q.rows[waiting.id].claim.value.expiresAt >= deadline
    requires m.Claiming? ==> m.input.claimedAt < deadline
    requires m.Renewal? && m.ticket.id == waiting.id ==> m.expiresAt >= deadline
    requires m.LateSale? || m.LateRejection? ==> m.ticket.id != waiting.id
    ensures Owns(Then(q, waiting, m), waiting)
    ensures Then(q, waiting, m).rows[waiting.id].claim.value.expiresAt >= deadline
  {
    hide HasConflict, NothingEligible;
  }

  /** A claim taken over during the await is confirmed by its old holder, on behalf of a claim it no
      longer owns. */
  lemma TakeoverDuringAwaitIsIgnored(q: State, ticket: Ticket, rid: ReservationId, input: ClaimInput,
                                     confirmedAt: int, attempt: Attempt)
    requires Checked(q, ticket, rid) && Expired(q.rows[ticket.id], input.claimedAt)
    requires q.rows[ticket.id].leaseTimeouts < input.maxLeaseTimeouts && input.claimToken != ticket.token
    ensures var mid := ClaimHead(q, ticket.id, input);
            var after := Sell(mid, ticket, rid, confirmedAt, attempt);
            && !Owns(mid, ticket) && Owns(mid, TicketFor(ticket.id, q.rows[ticket.id], input))
            && after.rows[ticket.id].status.CONFIRMED? && after.bookings[rid].requestId == ticket.id
  {
  }

  // ---------- terminal states ----------

  /** The unchecked writes keep every closed request closed, and every reservation, if and only if the
      request was still open when they came. */
  lemma WritesKeepHistoryIff(q: State, ticket: Ticket, rid: ReservationId, confirmedAt: int, attempt: Attempt)
    requires ticket.id in q.rows && rid !in q.bookings && attempt.requestId == ticket.id
    ensures HistoryKept(q, Sell(q, ticket, rid, confirmedAt, attempt)) <==> !Terminal(q.rows[ticket.id].status)
    ensures HistoryKept(q, Settle(q, ticket.id, REJECTED, false, attempt)) <==> !Terminal(q.rows[ticket.id].status)
  {
    assert LogOf(Append(q.log, attempt), ticket.id) != LogOf(q.log, ticket.id);
  }

  /** The new holder rejects or fails the request first: the old holder's writes turn the terminal
      row into CONFIRMED, after both attempts in the log. */
  lemma ClosedDuringAwaitIsOverwritten(q: State, ticket: Ticket, rid: ReservationId, input: ClaimInput, status: Status,
                                       transientFailure: bool, closing: Attempt, confirmedAt: int, attempt: Attempt)
    requires Checked(q, ticket, rid) && Expired(q.rows[ticket.id], input.claimedAt)
    requires q.rows[ticket.id].leaseTimeouts < input.maxLeaseTimeouts && input.claimToken != ticket.token
    requires Terminal(status) && closing.requestId == attempt.requestId == ticket.id
    ensures var taken := ClaimHead(q, ticket.id, input);
            var closed := Settle(taken, ticket.id, status, transientFailure, closing);
            var after := Sell(closed, ticket, rid, confirmedAt, attempt);
            && Owns(taken, TicketFor(ticket.id, q.rows[ticket.id], input)) && Terminal(closed.rows[ticket.id].status)
            && after.rows[ticket.id].status.CONFIRMED?
            && LogOf(after.log, ticket.id) == LogOf(q.log, ticket.id) + [closing, attempt]
            && !HistoryKept(closed, after)
  {
    var closed := Settle(ClaimHead(q, ticket.id, input), ticket.id, status, transientFailure, closing);
    WritesKeepHistoryIff(closed, ticket, rid, confirmedAt, attempt);
  }

  /** The same when the claim that came in between found the lease budget spent. */
  lemma TimedOutDuringAwaitIsOverwritten(q: State, ticket: Ticket, rid: ReservationId, input: ClaimInput,
                                         confirmedAt: int, attempt: Attempt)
    requires Checked(q, ticket, rid) && LeaseBudgetSpent(q.rows[ticket.id], input) && attempt.requestId == ticket.id
    ensures var failed := ClaimHead(q, ticket.id, input);
            && failed.rows[ticket.id].status.FAILED?
            && Sell(failed, ticket, rid, confirmedAt, attempt).rows[ticket.id].status.CONFIRMED?
            && !HistoryKept(failed, Sell(failed, ticket, rid, confirmedAt, attempt))
  {
    WritesKeepHistoryIff(ClaimHead(q, ticket.id, input), ticket, rid, confirmedAt, attempt);
  }

  /** The new holder confirms first: one request then has two reservations of the same seats. */
  lemma ConfirmedDuringAwaitSellsTwice(q: State, ticket: Ticket, rid: ReservationId, other: Ticket, sid: ReservationId,
                                       confirmedAt: int, first: Attempt, second: Attempt)
    requires Disjoint(q) && Checked(q, ticket, rid) && sid !in q.bookings && sid != rid
    requires other.id == ticket.id && other.demand == ticket.demand && ticket.demand.seats != {}
    ensures var sold := Sell(q, other, sid, confirmedAt, first);
            var after := Sell(sold, ticket, rid, confirmedAt, second);
            && after.bookings[sid].requestId == after.bookings[rid].requestId == ticket.id
            && Disjoint(sold) && !Disjoint(after)
  {
    FinishIsSafeIff(q, other, sid, confirmedAt, first);
    var sold := Sell(q, other, sid, confirmedAt, first);
    assert ticket.demand.seats * ticket.demand.seats == ticket.demand.seats;
    assert sid in sold.bookings && Conflicts(sold.bookings[sid], ticket.demand);
    FinishIsSafeIff(sold, ticket, rid, confirmedAt, second);
  }
}
