/** What holds in every reachable state, and along every run, for any number of workers. */
module Safety {
  import opened Domain
  import opened Queue
  import opened Protocol
  import opened ProtocolInvariant

  // ---------- what a run can do to the past ----------

  /** A closed request is final: neither its row nor its log changes again. */
  ghost predicate HistoryKept(q: State, q': State) {
    && BookingsGrow(q, q') && SameRequests(q, q')
    && forall id | id in q.rows && Terminal(q.rows[id].status) ::
         q'.rows[id] == q.rows[id] && LogOf(q'.log, id) == LogOf(q.log, id)
  }

  lemma OneRowHistory(q: State, q': State, id: RequestId)
    requires id in q.rows && !Terminal(q.rows[id].status) && id in q'.rows && q'.rows == q.rows[id := q'.rows[id]]
    requires q'.rows[id].demand == q.rows[id].demand && q'.rows[id].sequence == q.rows[id].sequence
    requires forall other | other != id :: LogOf(q'.log, other) == LogOf(q.log, other)
    requires BookingsGrow(q, q')
    ensures HistoryKept(q, q')
  {
  }

  lemma HeadIsOpen(q: State, id: RequestId, input: ClaimInput, skipped: set<RequestId>)
    requires IsHead(q, id, input, skipped)
    ensures id in q.rows && !Terminal(q.rows[id].status)
  {
  }

  lemma StepKeepsHistory(cfg: Config, s: Sys, a: Action)
    requires Enabled(cfg, s, a)
    ensures HistoryKept(s.q, Apply(cfg, s, a).q)
    ensures TicketsKept(s, Apply(cfg, s, a))
  {
    var q, q' := s.q, Apply(cfg, s, a).q;
    HistoryReflexive(q);
    hide HasConflict, Conflicts, NothingEligible, WellPlaced;
    match a
    case ClaimNext(input, skipped, Some(id)) =>
      HeadIsOpen(q, id, input, skipped);
      hide IsHead;
      OneRowHistory(q, q', id);
    case ClaimNext(_, _, None) =>
    case Save(id, _, _) => SaveKeepsHistory(q, a.id, a.demand, a.sequence);
    case Beat(token, _, _) =>
      hide HistoryKept;
      if q' != q { OneRowHistory(q, q', s.workers[token].ticket.id); }
    case Commit(token, _, _, _) => OneRowHistory(q, q', s.workers[token].ticket.id);
    case Reject(token, _) => OneRowHistory(q, q', s.workers[token].ticket.id);
    case Recover(token, _) =>
      hide HistoryKept;
      if q' != q { OneRowHistory(q, q', s.workers[token].ticket.id); }
    case Lookup(_, _) =>
    case Abort(_) =>
    case Throw(_) =>
    case Stop(_) =>
  }

  lemma SaveKeepsHistory(q: State, id: RequestId, demand: Demand, sequence: nat)
    requires id !in q.rows
    ensures HistoryKept(q, Enqueue(q, id, demand, sequence))
  {
  }

  lemma HistoryReflexive(q: State)
    ensures HistoryKept(q, q)
  {
  }

  lemma HistoryChains(a: State, b: State, c: State)
    requires HistoryKept(a, b) && HistoryKept(b, c)
    ensures HistoryKept(a, c)
  {
  }

  lemma {:induction false} RunKeepsHistory(cfg: Config, trace: seq<Sys>, acts: seq<Action>, i: nat, j: nat)
    requires Run(cfg, trace, acts) && i <= j < |trace|
    ensures HistoryKept(trace[i].q, trace[j].q) && TicketsKept(trace[i], trace[j])
  {
    hide Enabled, Apply, HistoryKept, Init;
    if i == j {
      HistoryReflexive(trace[i].q);
    } else {
      RunKeepsHistory(cfg, trace, acts, i, j - 1);
      StepKeepsHistory(cfg, trace[j - 1], acts[j - 1]);
      HistoryChains(trace[i].q, trace[j - 1].q, trace[j].q);
    }
  }

  /** Reservations are never dropped or changed, and terminal requests are final. */
  lemma HistoryIsKept(cfg: Config, s: Sys, s': Sys)
    requires Leads(cfg, s, s')
    ensures HistoryKept(s.q, s'.q) && TicketsKept(s, s')
  {
    hide Run, HistoryKept;
    var trace, acts, i: nat, j: nat :| Run(cfg, trace, acts) && i <= j < |trace| && trace[i] == s && trace[j] == s';
    RunKeepsHistory(cfg, trace, acts, i, j);
  }

  lemma LeadsReaches(cfg: Config, s: Sys, s': Sys)
    requires Leads(cfg, s, s')
    ensures Reachable(cfg, s) && Reachable(cfg, s')
  {
    hide Run;
    var trace, acts, i: nat, j: nat :| Run(cfg, trace, acts) && i <= j < |trace| && trace[i] == s && trace[j] == s';
  }

  // ---------- seats ----------

  /** Two reservations of one screening share no seat. */
  lemma NoSeatSoldTwice(cfg: Config, s: Sys, a: ReservationId, b: ReservationId)
    requires ValidConfig(cfg) && Reachable(cfg, s)
    requires a in s.q.bookings && b in s.q.bookings && a != b
    requires s.q.bookings[a].demand.screening == s.q.bookings[b].demand.screening
    ensures s.q.bookings[a].demand.seats !! s.q.bookings[b].demand.seats
  {
    ReachableInv(cfg, s);
    assert !Conflicts(s.q.bookings[a], s.q.bookings[b].demand);
    NothingShared(s.q.bookings[a].demand.seats, s.q.bookings[b].demand.seats);
  }

  lemma NothingShared(a: set<SeatId>, b: set<SeatId>)
    requires a * b == {}
    ensures a !! b
  {
    forall seat | seat in a ensures seat !in b { assert seat !in a * b; }
  }

  /** The reservations that name a request. */
  ghost function ReservationsOf(q: State, id: RequestId): set<ReservationId> {
    set rid | rid in q.bookings && q.bookings[rid].requestId == id
  }

  /** CONFIRMED means one reservation, which grants exactly what was asked for; anything else, none. */
  lemma ConfirmedMeansOneReservation(cfg: Config, s: Sys, id: RequestId)
    requires ValidConfig(cfg) && Reachable(cfg, s) && id in s.q.rows
    ensures s.q.rows[id].status.CONFIRMED? <==> |ReservationsOf(s.q, id)| == 1
    ensures !s.q.rows[id].status.CONFIRMED? <==> ReservationsOf(s.q, id) == {}
    ensures forall rid | rid in ReservationsOf(s.q, id) ::
              s.q.bookings[rid].demand == s.q.rows[id].demand && WellPlaced(cfg.catalog, s.q.bookings[rid].demand)
  {
    ReachableRow(cfg, s, id);
    hide Reachable, Conflicts, ClaimsOf, WellPlaced;
    forall rid | rid in ReservationsOf(s.q, id)
      ensures s.q.rows[id].status.CONFIRMED? && s.q.bookings[rid].demand == s.q.rows[id].demand
      ensures LogOf(s.q.log, id) != [] && LogOf(s.q.log, id)[|LogOf(s.q.log, id)| - 1].outcome == Confirmed(rid)
    {
      ReachableBooking(cfg, s, rid);
    }
    if s.q.rows[id].status.CONFIRMED? {
      var rid := LogOf(s.q.log, id)[s.q.rows[id].transientFailures].outcome.reservationId;
      assert ReservationsOf(s.q, id) == {rid};
    }
  }

  /** A rejection names another request's reservation that shares a seat, and it stays so forever. */
  lemma RejectionStaysJustified(cfg: Config, s: Sys, s': Sys, id: RequestId) returns (conflict: ReservationId)
    requires ValidConfig(cfg) && Leads(cfg, s, s')
    requires id in s.q.rows && s.q.rows[id].status.REJECTED?
    ensures var log := LogOf(s'.q.log, id);
            log != [] && log[|log| - 1].outcome == Rejected(conflict)
    ensures id in s'.q.rows && s'.q.rows[id].status.REJECTED?
    ensures conflict in s'.q.bookings && s'.q.bookings[conflict].requestId != id
    ensures Conflicts(s'.q.bookings[conflict], s'.q.rows[id].demand)
  {
    LeadsReaches(cfg, s, s');
    ReachableRow(cfg, s, id);
    HistoryIsKept(cfg, s, s');
    hide Leads, Reachable, ClaimsOf, WellPlaced;
    conflict := LogOf(s.q.log, id)[s.q.rows[id].transientFailures].outcome.conflictingReservationId;
  }

  /** After a confirm was rolled back on the seat constraint, whatever the other workers do before
      the follow-up lookup, that lookup finds a reservation. */
  lemma LookupAfterAbortFinds(cfg: Config, s: Sys, token: ClaimToken)
    requires ValidConfig(cfg) && Reachable(cfg, s) && InPhase(s, token, Aborted)
    ensures !Enabled(cfg, s, Lookup(token, None))
    ensures exists rid :: Enabled(cfg, s, Lookup(token, Some(rid)))
  {
    hide Reachable, RowOk, BookingOk, IsHead, NothingEligible, Owns;
    ReachableInv(cfg, s);
    AbortedHasConflict(s, token);
    hide Inv;
    var rid :| rid in s.q.bookings && Conflicts(s.q.bookings[rid], s.workers[token].ticket.demand);
    assert Enabled(cfg, s, Lookup(token, Some(rid)));
  }

  lemma AbortedHasConflict(s: Sys, token: ClaimToken)
    requires WorkersOk(s) && InPhase(s, token, Aborted)
    ensures HasConflict(s.q, s.workers[token].ticket.demand)
  {
    assert WorkerOk(s, token);
  }

  // ---------- fencing ----------

  /** No two workers hold valid claims of one request. */
  lemma OneHolder(cfg: Config, s: Sys, a: ClaimToken, b: ClaimToken)
    requires ValidConfig(cfg) && Reachable(cfg, s) && a in s.workers && b in s.workers
    requires s.workers[a].ticket.id == s.workers[b].ticket.id
    requires Holds(s.q, s.workers[a].ticket) && Holds(s.q, s.workers[b].ticket)
    ensures a == b
  {
    ReachableInv(cfg, s);
    assert WorkerOk(s, a) && WorkerOk(s, b);
  }

  lemma StepKeepsLost(cfg: Config, s: Sys, a: Action, token: ClaimToken)
    requires WorkersOk(s) && Enabled(cfg, s, a) && token in s.workers
    requires !Holds(s.q, s.workers[token].ticket)
    ensures !Holds(Apply(cfg, s, a).q, s.workers[token].ticket)
  {
    assert WorkerOk(s, token);
  }

  lemma {:induction false} RunKeepsLost(
      cfg: Config, trace: seq<Sys>, acts: seq<Action>, i: nat, j: nat, token: ClaimToken)
    requires ValidConfig(cfg) && Run(cfg, trace, acts) && i <= j < |trace| && token in trace[i].workers
    requires !Holds(trace[i].q, trace[i].workers[token].ticket)
    ensures !Holds(trace[j].q, trace[i].workers[token].ticket)
  {
    hide Enabled, Apply, Init, RowOk, WorkerOk, BookingOk;
    if i < j {
      RunKeepsLost(cfg, trace, acts, i, j - 1, token);
      RunKeepsInv(cfg, trace, acts, j - 1);
      RunKeepsHistory(cfg, trace, acts, i, j - 1);
      StepKeepsLost(cfg, trace[j - 1], acts[j - 1], token);
    }
  }

  /** A lost claim never becomes valid again. */
  lemma LostStaysLost(cfg: Config, s: Sys, s': Sys, token: ClaimToken)
    requires ValidConfig(cfg) && Leads(cfg, s, s') && token in s.workers
    requires !Holds(s.q, s.workers[token].ticket)
    ensures token in s'.workers && s'.workers[token].ticket == s.workers[token].ticket
    ensures !Holds(s'.q, s.workers[token].ticket)
  {
    hide Run, Holds;
    HistoryIsKept(cfg, s, s');
    var trace, acts, i: nat, j: nat :| Run(cfg, trace, acts) && i <= j < |trace| && trace[i] == s && trace[j] == s';
    RunKeepsLost(cfg, trace, acts, i, j, token);
  }

  /** The worker that takes an action, if one does. */
  function Actor(a: Action): Option<ClaimToken> {
    match a
    case Save(_, _, _) => None
    case ClaimNext(_, _, _) => None
    case Beat(token, _, _) => Some(token)
    case Lookup(token, _) => Some(token)
    case Commit(token, _, _, _) => Some(token)
    case Abort(token) => Some(token)
    case Reject(token, _) => Some(token)
    case Throw(token) => Some(token)
    case Recover(token, _) => Some(token)
    case Stop(token) => Some(token)
  }

  /** Once its claim is lost, nothing a worker does later changes the queue. */
  lemma LostWorkerIsHarmless(cfg: Config, s: Sys, s': Sys, token: ClaimToken, a: Action)
    requires ValidConfig(cfg) && Leads(cfg, s, s') && token in s.workers
    requires !Holds(s.q, s.workers[token].ticket)
    requires Enabled(cfg, s', a) && Actor(a) == Some(token)
    ensures Apply(cfg, s', a).q == s'.q
  {
    LostStaysLost(cfg, s, s', token);
  }

  // ---------- budgets and the log ----------

  /** No request is ever claimed more than T + L times. */
  lemma ClaimsAreBounded(cfg: Config, s: Sys, id: RequestId)
    requires ValidConfig(cfg) && Reachable(cfg, s) && id in s.q.rows
    ensures |ClaimsOf(s.workers, id)| <= cfg.maxTransientFailures + cfg.maxLeaseTimeouts
  {
    ReachableRow(cfg, s, id);
    hide Reachable;
  }

  function UnexpectedErrors(log: seq<Attempt>): nat {
    if log == [] then 0
    else UnexpectedErrors(log[..|log| - 1]) + if log[|log| - 1].outcome.UnexpectedError? then 1 else 0
  }

  lemma {:induction false} CountErrors(log: seq<Attempt>, k: nat)
    requires k <= |log| <= k + 1
    requires forall i | 0 <= i < k :: log[i].outcome.UnexpectedError?
    requires |log| == k + 1 ==> !log[k].outcome.UnexpectedError?
    ensures UnexpectedErrors(log) == k
  {
    if log != [] {
      var front := log[..|log| - 1];
      CountErrors(front, if |log| == k then k - 1 else k);
    }
  }

  /** The status a log stands for when nobody is working on the request. */
  function StatusOf(cfg: Config, log: seq<Attempt>): Status {
    if |log| == 0 then REQUESTED
    else match log[|log| - 1].outcome
      case Confirmed(_) => CONFIRMED
      case Rejected(_) => REJECTED
      case LeaseTimeout => FAILED
      case UnexpectedError => if |log| == cfg.maxTransientFailures then FAILED else REQUESTED
  }

  /** The attempt log determines the failure counter and, outside PROCESSING, the status; only its
      last entry can be anything but an unexpected error. */
  lemma LogDeterminesStatus(cfg: Config, s: Sys, id: RequestId)
    requires ValidConfig(cfg) && Reachable(cfg, s) && id in s.q.rows
    ensures var row, log := s.q.rows[id], LogOf(s.q.log, id);
            && row.transientFailures == UnexpectedErrors(log)
            && StatusOf(cfg, log) == (if row.status.PROCESSING? then REQUESTED else row.status)
            && forall k | 0 <= k < |log| - 1 :: log[k].outcome.UnexpectedError?
  {
    ReachableRow(cfg, s, id);
    hide Reachable, WellPlaced, Conflicts, ClaimsOf;
    CountErrors(LogOf(s.q.log, id), s.q.rows[id].transientFailures);
  }

  /** A request is FAILED only after T unexpected errors or after L lease timeouts. */
  lemma FailureUsedUpABudget(cfg: Config, s: Sys, id: RequestId)
    requires ValidConfig(cfg) && Reachable(cfg, s) && id in s.q.rows && s.q.rows[id].status.FAILED?
    ensures var row, log := s.q.rows[id], LogOf(s.q.log, id);
            && log != []
            && (log[|log| - 1].outcome.UnexpectedError? ==> row.transientFailures == cfg.maxTransientFailures)
            && (log[|log| - 1].outcome.LeaseTimeout? ==> row.leaseTimeouts == cfg.maxLeaseTimeouts)
            && (log[|log| - 1].outcome.UnexpectedError? || log[|log| - 1].outcome.LeaseTimeout?)
  {
    ReachableRow(cfg, s, id);
    hide Reachable;
  }

  // ---------- nobody is stranded ----------

  /** From the returned time on, every open request is eligible unless someone renews its lease. */
  lemma NobodyIsStranded(cfg: Config, s: Sys) returns (time: int)
    requires ValidConfig(cfg) && Reachable(cfg, s)
    ensures forall id, input: ClaimInput |
              && id in s.q.rows && !Terminal(s.q.rows[id].status)
              && input.claimedAt >= time && input.maxTransientFailures == cfg.maxTransientFailures ::
              Eligible(s.q.rows[id], input)
  {
    ReachableInv(cfg, s);
    hide Reachable;
    time := LatestExpiry(s.q.rows);
    forall id, input: ClaimInput |
      id in s.q.rows && !Terminal(s.q.rows[id].status) && input.claimedAt >= time
      && input.maxTransientFailures == cfg.maxTransientFailures
      ensures Eligible(s.q.rows[id], input)
    {
      assert RowOk(cfg, s, id);
    }
  }

  lemma {:induction false} LatestExpiry(rows: map<RequestId, Row>) returns (time: int)
    ensures forall id | id in rows && rows[id].claim.Some? :: rows[id].claim.value.expiresAt <= time
    decreases |rows|
  {
    time := 0;
    if rows != map[] {
      var id :| id in rows;
      time := LatestExpiry(rows - {id});
      if rows[id].claim.Some? && rows[id].claim.value.expiresAt > time { time := rows[id].claim.value.expiresAt; }
      assert forall other | other in rows && other != id :: other in rows - {id};
    }
  }
}
