/** What every reachable state satisfies, and the proof that every action keeps it. */
module ProtocolInvariant {
  import opened Domain
  import opened Queue
  import opened Protocol

  /** The tokens with which `id` was ever claimed. */
  ghost function ClaimsOf(workers: map<ClaimToken, Worker>, id: RequestId): set<ClaimToken> {
    set token | token in workers && workers[token].ticket.id == id
  }

  /** The attempt log accounts for the row: `transientFailures` unexpected errors, then at most one
      closing entry, which says what the terminal status is and why. */
  ghost predicate LogExplains(cfg: Config, q: State, id: RequestId)
    requires id in q.rows
  {
    var row, log := q.rows[id], LogOf(q.log, id);
    var k := row.transientFailures;
    && k <= |log| <= k + 1
    && (forall i | 0 <= i < k :: log[i].outcome.UnexpectedError?)
    && (|log| == k + 1 ==> k < cfg.maxTransientFailures && !log[k].outcome.UnexpectedError?)
    && match row.status
       case REQUESTED => |log| == k < cfg.maxTransientFailures
       case PROCESSING => |log| == k < cfg.maxTransientFailures
       case CONFIRMED =>
         && |log| == k + 1 && log[k].outcome.Confirmed?
         && var rid := log[k].outcome.reservationId;
         rid in q.bookings && q.bookings[rid].requestId == id
       case REJECTED =>
         && |log| == k + 1 && log[k].outcome.Rejected?
         && var c := log[k].outcome.conflictingReservationId;
         c in q.bookings && q.bookings[c].requestId != id && Conflicts(q.bookings[c], row.demand)
       case FAILED =>
         if |log| == k then k == cfg.maxTransientFailures
         else log[k].outcome.LeaseTimeout? && row.leaseTimeouts == cfg.maxLeaseTimeouts
  }

  /** One for the claim that is open or that closed the request with a non-transient outcome. */
  function LastClaim(row: Row, log: seq<Attempt>): int {
    if row.status.PROCESSING? then 1 else |log| - row.transientFailures
  }

  ghost predicate RowOk(cfg: Config, s: Sys, id: RequestId)
    requires id in s.q.rows
  {
    var row := s.q.rows[id];
    && WellPlaced(cfg.catalog, row.demand)
    && row.leaseTimeouts <= cfg.maxLeaseTimeouts
    && (row.status.PROCESSING? <==> row.claim.Some?)
    && (row.claim.Some? ==>
          && row.claim.value.token in s.workers
          && var ticket := s.workers[row.claim.value.token].ticket;
          && ticket.id == id && ticket.worker == row.claim.value.worker
          && ticket.transientFailures == row.transientFailures && ticket.leaseTimeouts == row.leaseTimeouts)
    && |ClaimsOf(s.workers, id)| == row.leaseTimeouts + row.transientFailures + LastClaim(row, LogOf(s.q.log, id))
    && LogExplains(cfg, s.q, id)
  }

  ghost predicate WorkerOk(s: Sys, token: ClaimToken)
    requires token in s.workers
  {
    var w := s.workers[token];
    && w.ticket.token == token && w.ticket.id in s.q.rows
    && w.ticket.demand == s.q.rows[w.ticket.id].demand
    && w.ticket.sequence == s.q.rows[w.ticket.id].sequence
    && (w.phase.Conflicted? ==>
          w.phase.conflict in s.q.bookings && Conflicts(s.q.bookings[w.phase.conflict], w.ticket.demand))
    && (w.phase.Aborted? ==> HasConflict(s.q, w.ticket.demand))
  }

  ghost predicate BookingOk(q: State, rid: ReservationId)
    requires rid in q.bookings
  {
    var booking := q.bookings[rid];
    && booking.requestId in q.rows
    && var row, log := q.rows[booking.requestId], LogOf(q.log, booking.requestId);
    && row.status.CONFIRMED? && booking.demand == row.demand
    && |log| > 0 && log[|log| - 1].outcome == Confirmed(rid)
  }

  ghost predicate RowsOk(cfg: Config, s: Sys) { forall id | id in s.q.rows :: RowOk(cfg, s, id) }

  ghost predicate WorkersOk(s: Sys) { forall token | token in s.workers :: WorkerOk(s, token) }

  ghost predicate BookingsOk(q: State) { forall rid | rid in q.bookings :: BookingOk(q, rid) }

  ghost predicate SequencesUnique(q: State) {
    forall a, b | a in q.rows && b in q.rows && a != b :: q.rows[a].sequence != q.rows[b].sequence
  }

  ghost predicate Inv(cfg: Config, s: Sys) {
    && RowsOk(cfg, s) && WorkersOk(s) && BookingsOk(s.q) && Disjoint(s.q) && SequencesUnique(s.q)
    && s.q.log.Keys <= s.q.rows.Keys
  }

  lemma InitInv(cfg: Config, s: Sys)
    requires ValidConfig(cfg) && Init(cfg, s)
    ensures Inv(cfg, s)
  {
    forall id | id in s.q.rows ensures RowOk(cfg, s, id) {
      assert ClaimsOf(s.workers, id) == {};
    }
  }

  // ---------- frames ----------

  /** Bookings are only ever added. */
  ghost predicate BookingsGrow(q: State, q': State) {
    forall rid | rid in q.bookings :: rid in q'.bookings && q'.bookings[rid] == q.bookings[rid]
  }

  lemma ConflictsPersist(q: State, q': State, demand: Demand)
    requires BookingsGrow(q, q') && HasConflict(q, demand)
    ensures HasConflict(q', demand)
  {
    var rid :| rid in q.bookings && Conflicts(q.bookings[rid], demand);
    assert rid in q'.bookings && Conflicts(q'.bookings[rid], demand);
  }

  /** No row disappears, and none changes what was asked for or its place in the queue. */
  ghost predicate SameRequests(q: State, q': State) {
    forall id | id in q.rows ::
      id in q'.rows && q'.rows[id].demand == q.rows[id].demand && q'.rows[id].sequence == q.rows[id].sequence
  }

  ghost predicate TicketsKept(s: Sys, s': Sys) {
    forall token | token in s.workers :: token in s'.workers && s'.workers[token].ticket == s.workers[token].ticket
  }

  ghost predicate RowUntouched(s: Sys, s': Sys, id: RequestId) {
    && id in s.q.rows && id in s'.q.rows && s'.q.rows[id] == s.q.rows[id]
    && LogOf(s'.q.log, id) == LogOf(s.q.log, id) && ClaimsOf(s'.workers, id) == ClaimsOf(s.workers, id)
  }

  lemma RowFrame(cfg: Config, s: Sys, s': Sys, id: RequestId)
    requires RowUntouched(s, s', id) && RowOk(cfg, s, id) && BookingsGrow(s.q, s'.q) && TicketsKept(s, s')
    ensures RowOk(cfg, s', id)
  {
  }

  lemma WorkerFrame(s: Sys, s': Sys, token: ClaimToken)
    requires token in s.workers && token in s'.workers && s'.workers[token] == s.workers[token]
    requires WorkerOk(s, token) && BookingsGrow(s.q, s'.q)
    requires SameRequests(s.q, s'.q)
    ensures WorkerOk(s', token)
  {
    if s.workers[token].phase.Aborted? {
      ConflictsPersist(s.q, s'.q, s.workers[token].ticket.demand);
    }
  }

  lemma RowsFrame(cfg: Config, s: Sys, s': Sys, id: RequestId)
    requires RowsOk(cfg, s) && BookingsGrow(s.q, s'.q) && TicketsKept(s, s')
    requires forall other | other in s'.q.rows && other != id :: RowUntouched(s, s', other)
    requires id in s'.q.rows ==> RowOk(cfg, s', id)
    ensures RowsOk(cfg, s')
  {
    forall other | other in s'.q.rows && other != id ensures RowOk(cfg, s', other) {
      assert RowUntouched(s, s', other);
      RowFrame(cfg, s, s', other);
    }
  }

  lemma WorkersFrame(s: Sys, s': Sys, token: ClaimToken)
    requires WorkersOk(s) && BookingsGrow(s.q, s'.q) && SameRequests(s.q, s'.q)
    requires forall other | other in s'.workers && other != token ::
               other in s.workers && s'.workers[other] == s.workers[other]
    requires token in s'.workers ==> WorkerOk(s', token)
    ensures WorkersOk(s')
  {
    forall other | other in s'.workers && other != token ensures WorkerOk(s', other) {
      WorkerFrame(s, s', other);
    }
  }

  /** Bookings stay justified as long as no CONFIRMED row or its log changes. */
  lemma BookingsFrame(q: State, q': State, id: RequestId)
    requires BookingsOk(q) && q'.bookings == q.bookings
    requires id in q.rows ==> !q.rows[id].status.CONFIRMED?
    requires forall other | other in q.rows && other != id ::
               other in q'.rows && q'.rows[other] == q.rows[other] && LogOf(q'.log, other) == LogOf(q.log, other)
    ensures BookingsOk(q')
  {
    forall rid | rid in q'.bookings ensures BookingOk(q', rid) { assert BookingOk(q, rid); }
  }

  // ---------- the writes ----------

  lemma MoveKeepsInv(cfg: Config, s: Sys, token: ClaimToken, phase: Phase)
    requires Inv(cfg, s) && token in s.workers
    requires WorkerOk(MoveTo(s, token, phase), token)
    ensures Inv(cfg, MoveTo(s, token, phase))
  {
    hide RowOk, WorkerOk, BookingOk;
    var s' := MoveTo(s, token, phase);
    MoveKeepsRows(cfg, s, token, phase);
    WorkersFrame(s, s', token);
  }

  lemma MoveKeepsRows(cfg: Config, s: Sys, token: ClaimToken, phase: Phase)
    requires RowsOk(cfg, s) && token in s.workers
    ensures RowsOk(cfg, MoveTo(s, token, phase))
  {
    var s' := MoveTo(s, token, phase);
    forall id | id in s.q.rows ensures RowOk(cfg, s', id) {
      assert ClaimsOf(s'.workers, id) == ClaimsOf(s.workers, id);
      RowFrame(cfg, s, s', id);
    }
  }

  lemma SaveKeepsInv(cfg: Config, s: Sys, id: RequestId, demand: Demand, sequence: nat)
    requires ValidConfig(cfg) && Inv(cfg, s) && Enabled(cfg, s, Save(id, demand, sequence))
    ensures Inv(cfg, s.(q := Enqueue(s.q, id, demand, sequence)))
  {
    hide RowOk, BookingOk;
    var s' := s.(q := Enqueue(s.q, id, demand, sequence));
    assert ClaimsOf(s.workers, id) == {} by { assert forall token | token in s.workers :: WorkerOk(s, token); }
    SavedRow(cfg, s, id, demand, sequence);
    hide WorkerOk;
    RowsFrame(cfg, s, s', id);
    forall token | token in s.workers ensures WorkerOk(s', token) { WorkerFrame(s, s', token); }
    BookingsFrame(s.q, s'.q, id);
  }

  lemma SavedRow(cfg: Config, s: Sys, id: RequestId, demand: Demand, sequence: nat)
    requires ValidConfig(cfg) && WellPlaced(cfg.catalog, demand)
    requires id !in s.q.log && ClaimsOf(s.workers, id) == {}
    ensures RowOk(cfg, s.(q := Enqueue(s.q, id, demand, sequence)), id)
  {
    assert ClaimsOf(s.(q := Enqueue(s.q, id, demand, sequence)).workers, id) == {};
  }

  /** A write that leaves a row PROCESSING, possibly issuing one new ticket for it. */
  lemma OpenWriteKeepsInv(cfg: Config, s: Sys, s': Sys, id: RequestId, row: Row, token: ClaimToken)
    requires Inv(cfg, s) && id in s.q.rows && s'.q == s.q.(rows := s.q.rows[id := row])
    requires !Terminal(s.q.rows[id].status)
    requires row.demand == s.q.rows[id].demand && row.sequence == s.q.rows[id].sequence
    requires RowOk(cfg, s', id) && TicketsKept(s, s')
    requires forall other | other in s'.workers && other != token ::
               other in s.workers && s'.workers[other] == s.workers[other]
    requires token in s'.workers ==> WorkerOk(s', token)
    requires forall other | other in s.q.rows
        && other != id :: ClaimsOf(s'.workers, other) == ClaimsOf(s.workers, other)
    ensures Inv(cfg, s')
  {
    hide RowOk, WorkerOk, BookingOk;
    RowsFrame(cfg, s, s', id);
    WorkersFrame(s, s', token);
    BookingsFrame(s.q, s'.q, id);
  }

  lemma BeatKeepsInv(cfg: Config, s: Sys, token: ClaimToken, at: int, expiresAt: int)
    requires Inv(cfg, s) && token in s.workers
    ensures Inv(cfg, s.(q := Heartbeat(s.q, s.workers[token].ticket, at, expiresAt)))
  {
    var ticket := s.workers[token].ticket;
    if Holds(s.q, ticket) {
      hide RowOk, WorkerOk;
      var s' := s.(q := Renew(s.q, ticket.id, at, expiresAt));
      RenewedRow(cfg, s, ticket.id, at, expiresAt);
      WorkerFrame(s, s', token);
      OpenWriteKeepsInv(cfg, s, s', ticket.id, s'.q.rows[ticket.id], token);
    }
  }

  lemma RenewedRow(cfg: Config, s: Sys, id: RequestId, at: int, expiresAt: int)
    requires id in s.q.rows && RowOk(cfg, s, id) && s.q.rows[id].claim.Some?
    ensures RowOk(cfg, s.(q := Renew(s.q, id, at, expiresAt)), id)
  {
  }

  /** Closing a PROCESSING row with one more log entry. */
  lemma SettleKeepsInv(cfg: Config, s: Sys, id: RequestId, status: Status, transient: bool, attempt: Attempt)
    requires Inv(cfg, s) && id in s.q.rows && s.q.rows[id].status.PROCESSING? && attempt.requestId == id
    requires RowOk(cfg, s.(q := Settle(s.q, id, status, transient, attempt)), id)
    ensures Inv(cfg, s.(q := Settle(s.q, id, status, transient, attempt)))
  {
    hide RowOk, WorkerOk, BookingOk;
    var s' := s.(q := Settle(s.q, id, status, transient, attempt));
    RowsFrame(cfg, s, s', id);
    forall token | token in s.workers ensures WorkerOk(s', token) { WorkerFrame(s, s', token); }
    BookingsFrame(s.q, s'.q, id);
  }

  lemma SpentClaimKeepsInv(cfg: Config, s: Sys, input: ClaimInput, id: RequestId)
    requires Inv(cfg, s) && id in s.q.rows && LeaseBudgetSpent(s.q.rows[id], input)
    requires input.maxLeaseTimeouts == cfg.maxLeaseTimeouts
    ensures Inv(cfg, s.(q := ClaimHead(s.q, id, input)))
  {
    hide RowOk, WorkerOk, BookingOk;
    TimedOutRow(cfg, s, id, input);
    SettleKeepsInv(cfg, s, id, FAILED, false,
                   Attempt(id, s.q.rows[id].sequence, input.claimedAt, input.claimedAt, LeaseTimeout));
  }

  lemma TimedOutRow(cfg: Config, s: Sys, id: RequestId, input: ClaimInput)
    requires id in s.q.rows && RowOk(cfg, s, id) && LeaseBudgetSpent(s.q.rows[id], input)
    requires input.maxLeaseTimeouts == cfg.maxLeaseTimeouts
    ensures RowOk(cfg, s.(q := ClaimHead(s.q, id, input)), id)
  {
  }

  /** A fresh token makes one more claim of this row and of no other. */
  lemma NewClaim(s: Sys, token: ClaimToken, w: Worker)
    requires token !in s.workers
    ensures |ClaimsOf(s.workers[token := w], w.ticket.id)| == |ClaimsOf(s.workers, w.ticket.id)| + 1
    ensures forall id | id != w.ticket.id :: ClaimsOf(s.workers[token := w], id) == ClaimsOf(s.workers, id)
  {
    assert ClaimsOf(s.workers[token := w], w.ticket.id) == ClaimsOf(s.workers, w.ticket.id) + {token};
  }

  /** The system after a successful claim. */
  function WithClaim(s: Sys, input: ClaimInput, id: RequestId): Sys
    requires id in s.q.rows
  {
    Sys(ClaimHead(s.q, id, input),
        s.workers[input.claimToken := Worker(TicketFor(id, s.q.rows[id], input), input.claimedAt, Looking)])
  }

  lemma ClaimedRow(cfg: Config, s: Sys, input: ClaimInput, id: RequestId)
    requires id in s.q.rows && RowOk(cfg, s, id)
    requires Eligible(s.q.rows[id], input) && !LeaseBudgetSpent(s.q.rows[id], input) && input.claimToken !in s.workers
    requires input.maxLeaseTimeouts == cfg.maxLeaseTimeouts && input.maxTransientFailures == cfg.maxTransientFailures
    ensures RowOk(cfg, WithClaim(s, input, id), id) && WorkerOk(WithClaim(s, input, id), input.claimToken)
  {
    NewClaim(s, input.claimToken, WithClaim(s, input, id).workers[input.claimToken]);
  }

  lemma NewClaimKeepsInv(cfg: Config, s: Sys, input: ClaimInput, id: RequestId)
    requires Inv(cfg, s) && id in s.q.rows && Eligible(s.q.rows[id], input) && !LeaseBudgetSpent(s.q.rows[id], input)
    requires input.claimToken !in s.workers
    requires input.maxLeaseTimeouts == cfg.maxLeaseTimeouts && input.maxTransientFailures == cfg.maxTransientFailures
    ensures Inv(cfg, WithClaim(s, input, id))
  {
    hide RowOk, WorkerOk, BookingOk;
    var s' := WithClaim(s, input, id);
    ClaimedRow(cfg, s, input, id);
    NewClaim(s, input.claimToken, s'.workers[input.claimToken]);
    OpenWriteKeepsInv(cfg, s, s', id, Claimed(s.q.rows[id], input), input.claimToken);
  }

  lemma RecoverKeepsInv(cfg: Config, s: Sys, token: ClaimToken, completedAt: int)
    requires ValidConfig(cfg) && Inv(cfg, s) && token in s.workers
    ensures Inv(cfg, s.(q := Recovered(cfg, s.q, s.workers[token], completedAt)))
  {
    hide RowOk, WorkerOk, BookingOk;
    var w := s.workers[token];
    if Owns(s.q, w.ticket) {
      RecoveredRow(cfg, s, token, completedAt);
      SettleKeepsInv(cfg, s, w.ticket.id,
                     if w.ticket.transientFailures + 1 < cfg.maxTransientFailures then REQUESTED else FAILED,
                     true, AttemptBy(w, completedAt, UnexpectedError));
    }
  }

  lemma RecoveredRow(cfg: Config, s: Sys, token: ClaimToken, completedAt: int)
    requires token in s.workers && WorkerOk(s, token) && Owns(s.q, s.workers[token].ticket)
    requires RowOk(cfg, s, s.workers[token].ticket.id)
    ensures RowOk(cfg, s.(q := Recovered(cfg, s.q, s.workers[token], completedAt)), s.workers[token].ticket.id)
  {
  }

  lemma WorkerFacts(s: Sys, token: ClaimToken)
    requires token in s.workers && WorkerOk(s, token)
    ensures var w := s.workers[token];
            && w.ticket.id in s.q.rows && w.ticket.demand == s.q.rows[w.ticket.id].demand
            && (w.phase.Conflicted? ==> w.phase.conflict in s.q.bookings)
  {
  }

  lemma RejectKeepsInv(cfg: Config, s: Sys, token: ClaimToken, completedAt: int)
    requires Inv(cfg, s) && Enabled(cfg, s, Reject(token, completedAt))
    ensures Inv(cfg, Apply(cfg, s, Reject(token, completedAt)))
  {
    hide RowOk, WorkerOk, BookingOk, HasConflict, Conflicts, IsHead, NothingEligible, WellPlaced;
    var w := s.workers[token];
    var attempt := AttemptBy(w, completedAt, Rejected(w.phase.conflict));
    WorkerFacts(s, token);
    RejectedRow(cfg, s, token, completedAt);
    SettleKeepsInv(cfg, s, w.ticket.id, REJECTED, false, attempt);
    DoneKeepsInv(cfg, s.(q := Settle(s.q, w.ticket.id, REJECTED, false, attempt)), token);
  }

  lemma RejectedRow(cfg: Config, s: Sys, token: ClaimToken, completedAt: int)
    requires token in s.workers && WorkerOk(s, token) && Owns(s.q, s.workers[token].ticket)
    requires s.workers[token].phase.Conflicted? && BookingOk(s.q, s.workers[token].phase.conflict)
    requires RowOk(cfg, s, s.workers[token].ticket.id)
    ensures var w := s.workers[token];
            RowOk(cfg, s.(q := Settle(s.q, w.ticket.id, REJECTED, false,
                                      AttemptBy(w, completedAt, Rejected(w.phase.conflict)))), w.ticket.id)
  {
  }

  /** Selling seats nobody else holds keeps every sale disjoint and accounted for. */
  lemma CommitKeepsBookings(q: State, ticket: Ticket, rid: ReservationId, confirmedAt: int, attempt: Attempt)
    requires BookingsOk(q) && Disjoint(q) && ticket.id in q.rows && q.rows[ticket.id].status.PROCESSING?
    requires rid !in q.bookings && !HasConflict(q, ticket.demand) && ticket.demand == q.rows[ticket.id].demand
    requires attempt.requestId == ticket.id && attempt.outcome == Confirmed(rid)
    ensures BookingsOk(Sell(q, ticket, rid, confirmedAt, attempt))
    ensures Disjoint(Sell(q, ticket, rid, confirmedAt, attempt))
  {
    var q' := Sell(q, ticket, rid, confirmedAt, attempt);
    forall r | r in q'.bookings ensures BookingOk(q', r) {
      if r != rid { assert BookingOk(q, r); }
    }
    forall r | r in q.bookings
      ensures !Conflicts(q.bookings[r], ticket.demand) && !Conflicts(q'.bookings[rid], q.bookings[r].demand)
    {
      assert q.bookings[r].demand.seats * ticket.demand.seats == ticket.demand.seats * q.bookings[r].demand.seats;
    }
  }

  lemma CommittedRow(cfg: Config, s: Sys, token: ClaimToken, rid: ReservationId, confirmedAt: int, completedAt: int)
    requires token in s.workers && WorkerOk(s, token) && Owns(s.q, s.workers[token].ticket)
    requires RowOk(cfg, s, s.workers[token].ticket.id)
    ensures RowOk(cfg, s.(q := Sale(s.q, s.workers[token], rid, confirmedAt, completedAt)),
                  s.workers[token].ticket.id)
  {
  }

  lemma SaleKeepsInv(cfg: Config, s: Sys, token: ClaimToken, rid: ReservationId, confirmedAt: int, completedAt: int)
    requires Inv(cfg, s) && token in s.workers && WorkerOk(s, token) && Owns(s.q, s.workers[token].ticket)
    requires rid !in s.q.bookings && !HasConflict(s.q, s.workers[token].ticket.demand)
    requires s.workers[token].ticket.demand == s.q.rows[s.workers[token].ticket.id].demand
    ensures Inv(cfg, s.(q := Sale(s.q, s.workers[token], rid, confirmedAt, completedAt)))
  {
    hide RowOk, WorkerOk, BookingOk, HasConflict;
    var w := s.workers[token];
    var s' := s.(q := Sale(s.q, w, rid, confirmedAt, completedAt));
    CommittedRow(cfg, s, token, rid, confirmedAt, completedAt);
    RowsFrame(cfg, s, s', w.ticket.id);
    forall t | t in s.workers ensures WorkerOk(s', t) { WorkerFrame(s, s', t); }
    CommitKeepsBookings(s.q, w.ticket, rid, confirmedAt, AttemptBy(w, completedAt, Confirmed(rid)));
  }

  lemma CommitKeepsInv(cfg: Config, s: Sys, token: ClaimToken, rid: ReservationId, confirmedAt: int, completedAt: int)
    requires Inv(cfg, s) && Enabled(cfg, s, Commit(token, rid, confirmedAt, completedAt))
    ensures Inv(cfg, Apply(cfg, s, Commit(token, rid, confirmedAt, completedAt)))
  {
    hide RowOk, WorkerOk, BookingOk, HasConflict, Conflicts, IsHead, NothingEligible, WellPlaced;
    var w := s.workers[token];
    WorkerFacts(s, token);
    SaleKeepsInv(cfg, s, token, rid, confirmedAt, completedAt);
    DoneKeepsInv(cfg, s.(q := Sale(s.q, w, rid, confirmedAt, completedAt)), token);
  }

  lemma DoneKeepsInv(cfg: Config, s: Sys, token: ClaimToken)
    requires Inv(cfg, s) && token in s.workers
    ensures Inv(cfg, MoveTo(s, token, Done))
  {
    assert WorkerOk(s, token);
    hide RowOk, BookingOk;
    MoveKeepsInv(cfg, s, token, Done);
  }

  /** Every action of every worker keeps the invariant. */
  lemma StepKeepsInv(cfg: Config, s: Sys, a: Action)
    requires ValidConfig(cfg) && Inv(cfg, s) && Enabled(cfg, s, a)
    ensures Inv(cfg, Apply(cfg, s, a))
  {
    hide Inv, HasConflict, Conflicts, NothingEligible, WellPlaced, Owns, Holds;
    match a
    case Save(id, demand, sequence) => SaveKeepsInv(cfg, s, id, demand, sequence);
    case ClaimNext(input, skipped, head) =>
      if head.Some? {
        if LeaseBudgetSpent(s.q.rows[head.value], input) { SpentClaimKeepsInv(cfg, s, input, head.value); }
        else { NewClaimKeepsInv(cfg, s, input, head.value); }
      }
    case Beat(token, at, expiresAt) => BeatKeepsInv(cfg, s, token, at, expiresAt);
    case Commit(token, rid, confirmedAt, completedAt) => CommitKeepsInv(cfg, s, token, rid, confirmedAt, completedAt);
    case Reject(token, completedAt) => RejectKeepsInv(cfg, s, token, completedAt);
    case Recover(token, completedAt) =>
      RecoverKeepsInv(cfg, s, token, completedAt);
      DoneKeepsInv(cfg, s.(q := Recovered(cfg, s.q, s.workers[token], completedAt)), token);
    case Lookup(token, found) => PhaseKeepsInv(cfg, s, a, token);
    case Abort(token) => PhaseKeepsInv(cfg, s, a, token);
    case Throw(token) => PhaseKeepsInv(cfg, s, a, token);
    case Stop(token) => PhaseKeepsInv(cfg, s, a, token);
  }

  /** Actions that only move the worker on. */
  lemma PhaseKeepsInv(cfg: Config, s: Sys, a: Action, token: ClaimToken)
    requires Inv(cfg, s) && Enabled(cfg, s, a)
    requires (a.Lookup? || a.Abort? || a.Throw? || a.Stop?) && a.token == token
    ensures Inv(cfg, Apply(cfg, s, a))
  {
    assert WorkerOk(s, token);
    hide RowOk, BookingOk, Inv;
    MoveKeepsInv(cfg, s, token, Apply(cfg, s, a).workers[token].phase);
  }

  lemma {:induction false} RunKeepsInv(cfg: Config, trace: seq<Sys>, acts: seq<Action>, i: nat)
    requires ValidConfig(cfg) && Run(cfg, trace, acts) && i < |trace|
    ensures Inv(cfg, trace[i])
  {
    if i == 0 {
      InitInv(cfg, trace[0]);
    } else {
      RunKeepsInv(cfg, trace, acts, i - 1);
      StepKeepsInv(cfg, trace[i - 1], acts[i - 1]);
    }
  }

  lemma ReachableRow(cfg: Config, s: Sys, id: RequestId)
    requires ValidConfig(cfg) && Reachable(cfg, s) && id in s.q.rows
    ensures RowOk(cfg, s, id)
  {
    hide RowOk, Reachable;
    ReachableInv(cfg, s);
  }

  lemma ReachableBooking(cfg: Config, s: Sys, rid: ReservationId)
    requires ValidConfig(cfg) && Reachable(cfg, s) && rid in s.q.bookings
    ensures BookingOk(s.q, rid)
  {
    hide BookingOk, Reachable;
    ReachableInv(cfg, s);
  }

  /** Every reachable state satisfies the invariant. */
  lemma ReachableInv(cfg: Config, s: Sys)
    requires ValidConfig(cfg) && Reachable(cfg, s)
    ensures Inv(cfg, s)
  {
    hide Run, Inv;
    var trace, acts, i: nat :| Run(cfg, trace, acts) && i < |trace| && trace[i] == s;
    RunKeepsInv(cfg, trace, acts, i);
  }
}
