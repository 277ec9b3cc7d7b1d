/** Any number of workers driving the queue. Every action is one atomic repository call, or a
    worker's own bookkeeping between two calls. A crash is a worker that never acts again. */
module Protocol {
  import opened Domain
  import opened Queue

  /** Deployment constants; configuration guarantees `maxTransientFailures >= 1`. */
  datatype Config = Config(maxTransientFailures: nat, maxLeaseTimeouts: nat, catalog: Catalog)

  ghost predicate ValidConfig(cfg: Config) {
    cfg.maxTransientFailures >= 1
  }

  /** Where a worker is between two repository calls for one claimed item. */
  datatype Phase =
    | Looking                                // before the conflict lookup
    | Clear                                  // the lookup found nothing
    | Conflicted(conflict: ReservationId)    // the lookup named a reservation
    | Aborted                                // confirm rolled back on the seat constraint
    | Erring                                 // in the catch block
    | Done

  datatype Worker = Worker(ticket: Ticket, startedAt: int, phase: Phase)

  datatype Sys = Sys(q: State, workers: map<ClaimToken, Worker>)

  datatype Action =
    | Save(id: RequestId, demand: Demand, sequence: nat)
    | ClaimNext(input: ClaimInput, skipped: set<RequestId>, head: Option<RequestId>)
    | Beat(token: ClaimToken, at: int, expiresAt: int)
    | Lookup(token: ClaimToken, found: Option<ReservationId>)
    | Commit(token: ClaimToken, rid: ReservationId, confirmedAt: int, completedAt: int)
    | Abort(token: ClaimToken)
    | Reject(token: ClaimToken, completedAt: int)
    | Throw(token: ClaimToken)
    | Recover(token: ClaimToken, completedAt: int)
    | Stop(token: ClaimToken)

  predicate WellPlaced(catalog: Catalog, demand: Demand) {
    && demand.screening in catalog.screenings
    && catalog.screenings[demand.screening].movieProviderId == demand.provider
    && demand.seats != {} && demand.seats <= SeatsOf(catalog, demand.screening)
  }

  ghost predicate InPhase(s: Sys, token: ClaimToken, phase: Phase) {
    token in s.workers && s.workers[token].phase == phase
  }

  function MoveTo(s: Sys, token: ClaimToken, phase: Phase): Sys
    requires token in s.workers
  {
    s.(workers := s.workers[token := s.workers[token].(phase := phase)])
  }

  ghost predicate Enabled(cfg: Config, s: Sys, a: Action) {
    match a
    case Save(id, demand, sequence) =>
      && id !in s.q.rows && WellPlaced(cfg.catalog, demand)
      && forall other | other in s.q.rows :: s.q.rows[other].sequence != sequence
    case ClaimNext(input, skipped, head) =>
      && input.claimToken !in s.workers
      && input.maxTransientFailures == cfg.maxTransientFailures && input.maxLeaseTimeouts == cfg.maxLeaseTimeouts
      && if head.Some? then IsHead(s.q, head.value, input, skipped) else NothingEligible(s.q, input, skipped)
    case Beat(token, _, _) =>
      token in s.workers
    case Lookup(token, found) =>
      && (InPhase(s, token, Looking) || InPhase(s, token, Aborted))
      && (found.Some? ==> found.value in s.q.bookings
                          && Conflicts(s.q.bookings[found.value], s.workers[token].ticket.demand))
      && (found.None? ==> !HasConflict(s.q, s.workers[token].ticket.demand))
    case Commit(token, rid, _, _) =>
      && InPhase(s, token, Clear) && Owns(s.q, s.workers[token].ticket)
      && rid !in s.q.bookings && !HasConflict(s.q, s.workers[token].ticket.demand)
    case Abort(token) =>
      && InPhase(s, token, Clear) && HasConflict(s.q, s.workers[token].ticket.demand)
    case Reject(token, _) =>
      && token in s.workers && s.workers[token].phase.Conflicted? && Owns(s.q, s.workers[token].ticket)
    case Throw(token) =>
      token in s.workers && !s.workers[token].phase.Done?
    case Recover(token, _) =>
      InPhase(s, token, Erring)
    case Stop(token) =>
      token in s.workers
  }

  function AttemptBy(w: Worker, completedAt: int, outcome: Outcome): Attempt {
    Attempt(w.ticket.id, w.ticket.sequence, w.startedAt, completedAt, outcome)
  }

  /** The queue after the catch block: released while attempts remain, failed otherwise. */
  function Recovered(cfg: Config, q: State, w: Worker, completedAt: int): State {
    if !Owns(q, w.ticket) then q
    else
      Settle(q, w.ticket.id,
             if w.ticket.transientFailures + 1 < cfg.maxTransientFailures then REQUESTED else FAILED,
             true, AttemptBy(w, completedAt, UnexpectedError))
  }

  function BookingFor(ticket: Ticket, confirmedAt: int): Booking {
    Booking(ticket.id, ticket.demand, confirmedAt)
  }

  /** What confirming writes: the request closed and its reservation stored. */
  function Sell(q: State, ticket: Ticket, rid: ReservationId, confirmedAt: int, attempt: Attempt): State
    requires ticket.id in q.rows
  {
    Book(Settle(q, ticket.id, CONFIRMED, false, attempt), rid, BookingFor(ticket, confirmedAt))
  }

  function Sale(q: State, w: Worker, rid: ReservationId, confirmedAt: int, completedAt: int): State
    requires w.ticket.id in q.rows
  {
    Sell(q, w.ticket, rid, confirmedAt, AttemptBy(w, completedAt, Confirmed(rid)))
  }

  ghost function Apply(cfg: Config, s: Sys, a: Action): Sys
    requires Enabled(cfg, s, a)
  {
    match a
    case Save(id, demand, sequence) =>
      s.(q := Enqueue(s.q, id, demand, sequence))
    case ClaimNext(input, _, head) =>
      if head.None? then s
      else if LeaseBudgetSpent(s.q.rows[head.value], input) then s.(q := ClaimHead(s.q, head.value, input))
      else
        Sys(ClaimHead(s.q, head.value, input),
            s.workers[input.claimToken :=
              Worker(TicketFor(head.value, s.q.rows[head.value], input), input.claimedAt, Looking)])
    case Beat(token, at, expiresAt) =>
      s.(q := Heartbeat(s.q, s.workers[token].ticket, at, expiresAt))
    case Lookup(token, found) =>
      MoveTo(s, token,
             if found.Some? then Conflicted(found.value)
             else if s.workers[token].phase.Aborted? then Erring else Clear)
    case Commit(token, rid, confirmedAt, completedAt) =>
      var w := s.workers[token];
      MoveTo(s.(q := Sale(s.q, w, rid, confirmedAt, completedAt)), token, Done)
    case Abort(token) =>
      MoveTo(s, token, Aborted)
    case Reject(token, completedAt) =>
      var w := s.workers[token];
      MoveTo(s.(q := Settle(s.q, w.ticket.id, REJECTED, false, AttemptBy(w, completedAt, Rejected(w.phase.conflict)))),
             token, Done)
    case Throw(token) =>
      MoveTo(s, token, Erring)
    case Recover(token, completedAt) =>
      MoveTo(s.(q := Recovered(cfg, s.q, s.workers[token], completedAt)), token, Done)
    case Stop(token) =>
      MoveTo(s, token, Done)
  }

  /** Only freshly requested rows, nothing sold, nobody working. */
  ghost predicate Init(cfg: Config, s: Sys) {
    && s.workers == map[] && s.q.bookings == map[] && s.q.log == map[]
    && (forall id | id in s.q.rows ::
          && WellPlaced(cfg.catalog, s.q.rows[id].demand)
          && s.q.rows[id] == Row(s.q.rows[id].demand, REQUESTED, s.q.rows[id].sequence, 0, 0, None))
    && forall a, b | a in s.q.rows && b in s.q.rows && a != b :: s.q.rows[a].sequence != s.q.rows[b].sequence
  }

  /** A run: `trace[i]` is the state before `acts[i]`. */
  ghost predicate Run(cfg: Config, trace: seq<Sys>, acts: seq<Action>) {
    && |trace| == |acts| + 1 && Init(cfg, trace[0])
    && forall i | 0 <= i < |acts| :: Enabled(cfg, trace[i], acts[i]) && trace[i + 1] == Apply(cfg, trace[i], acts[i])
  }

  ghost predicate Reachable(cfg: Config, s: Sys) {
    exists trace, acts, i: nat :: Run(cfg, trace, acts) && i < |trace| && trace[i] == s
  }

  /** Some run passes through `s` and later, or at once, through `s'`. */
  ghost predicate Leads(cfg: Config, s: Sys, s': Sys) {
    exists trace, acts, i: nat, j: nat ::
      Run(cfg, trace, acts) && i <= j < |trace| && trace[i] == s && trace[j] == s'
  }
}
