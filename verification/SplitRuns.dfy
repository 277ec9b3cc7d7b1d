/** The in-memory store under one polling worker, run for run: every call is a step of its own, and
    confirm is two steps, with heartbeats and new requests between any two steps. */
module SplitRuns {
  import opened Domain
  import opened Queue
  import opened Protocol
  import opened ProtocolInvariant
  import opened Safety
  import opened InMemoryStore
  import opened InMemoryWorkRepository
  import opened SerialRuns
  import opened SplitConfirm

  // ---------- runs ----------

  /** A confirm that has made its checks and awaits: what its lookup found is what it will act on. */
  datatype Pending = Pending(token: ClaimToken, rid: ReservationId, found: Option<ReservationId>)

  datatype Mem = Mem(sys: Sys, pending: Option<Pending>)

  datatype MemStep =
    | Act(action: Action)
    | Check(pending: Pending)
    | Write(confirmedAt: int, completedAt: int)

  /** No pass is in flight. */
  ghost predicate Idle(m: Mem) {
    m.pending.None? && forall token | token in m.sys.workers :: m.sys.workers[token].phase.Done?
  }

  ghost predicate CheckPasses(s: Sys, p: Pending) {
    && InPhase(s, p.token, Clear)
    && var ticket := s.workers[p.token].ticket;
    && Owns(s.q, ticket) && p.rid !in s.q.bookings
    && (p.found.None? ==> !HasConflict(s.q, ticket.demand))
    && (p.found.Some? ==> p.found.value in s.q.bookings && Conflicts(s.q.bookings[p.found.value], ticket.demand))
  }

  /** A pass starts only when none is in flight; while one awaits inside confirm, only heartbeats and
      new requests run. A confirm whose check fails is a thrown error. */
  ghost predicate MemEnabled(cfg: Config, m: Mem, step: MemStep) {
    match step
    case Act(a) =>
      && Enabled(cfg, m.sys, a) && !a.Commit? && !a.Abort?
      && (a.ClaimNext? ==> Idle(m) && a.skipped == {})
      && (m.pending.Some? ==> a.Save? || a.Beat?)
    case Check(p) => m.pending.None? && CheckPasses(m.sys, p)
    case Write(_, _) => m.pending.Some? && m.pending.value.token in m.sys.workers
                        && m.sys.workers[m.pending.value.token].ticket.id in m.sys.q.rows
  }

  /** The writes after the await check nothing. */
  function Written(s: Sys, p: Pending, confirmedAt: int, completedAt: int): Sys
    requires p.token in s.workers && s.workers[p.token].ticket.id in s.q.rows
  {
    var w := s.workers[p.token];
    var q := match p.found
      case None => Sale(s.q, w, p.rid, confirmedAt, completedAt)
      case Some(c) => Settle(s.q, w.ticket.id, REJECTED, false, AttemptBy(w, completedAt, Rejected(c)));
    MoveTo(s.(q := q), p.token, Done)
  }

  ghost function MemApply(cfg: Config, m: Mem, step: MemStep): Mem
    requires MemEnabled(cfg, m, step)
  {
    match step
    case Act(a) => m.(sys := Apply(cfg, m.sys, a))
    case Check(p) => m.(pending := Some(p))
    case Write(confirmedAt, completedAt) => Mem(Written(m.sys, m.pending.value, confirmedAt, completedAt), None)
  }

  ghost predicate MemRun(cfg: Config, trace: seq<Mem>, steps: seq<MemStep>) {
    && |trace| == |steps| + 1 && Init(cfg, trace[0].sys) && trace[0].pending.None?
    && forall i | 0 <= i < |steps| ::
         MemEnabled(cfg, trace[i], steps[i]) && trace[i + 1] == MemApply(cfg, trace[i], steps[i])
  }

  /** What was checked before the await still holds: the claim is owned, the reservation id is new,
      and the lookup's answer is still right. */
  ghost predicate StillPasses(m: Mem) {
    m.pending.Some? ==> CheckPasses(m.sys, m.pending.value)
  }

  lemma AsideKeepsCheck(cfg: Config, s: Sys, a: Action, p: Pending)
    requires Enabled(cfg, s, a) && (a.Save? || a.Beat?) && CheckPasses(s, p)
    ensures CheckPasses(Apply(cfg, s, a), p)
  {
    assert Apply(cfg, s, a).q.bookings == s.q.bookings && Apply(cfg, s, a).workers == s.workers;
    hide Conflicts, WellPlaced;
  }

  /** The late writes are a commit, or an abort followed by the lookup and the rejection. */
  lemma WriteIsRun(cfg: Config, s: Sys, p: Pending, confirmedAt: int, completedAt: int)
    requires Reachable(cfg, s) && CheckPasses(s, p)
    ensures Leads(cfg, s, Written(s, p, confirmedAt, completedAt))
  {
    hide Leads, Reachable, Conflicts;
    match p.found
    case None =>
      StepLeads(cfg, s, Commit(p.token, p.rid, confirmedAt, completedAt));
    case Some(c) =>
      StepLeads(cfg, s, Abort(p.token));
      var aborted := Apply(cfg, s, Abort(p.token));
      ThenStep(cfg, s, aborted, Lookup(p.token, Some(c)));
      var conflicted := Apply(cfg, aborted, Lookup(p.token, Some(c)));
      ThenStep(cfg, s, conflicted, Reject(p.token, completedAt));
      assert Apply(cfg, conflicted, Reject(p.token, completedAt)) == Written(s, p, confirmedAt, completedAt);
  }

  lemma MemStepIsRun(cfg: Config, m: Mem, step: MemStep)
    requires Reachable(cfg, m.sys) && StillPasses(m) && MemEnabled(cfg, m, step)
    ensures Leads(cfg, m.sys, MemApply(cfg, m, step).sys) && StillPasses(MemApply(cfg, m, step))
  {
    hide Leads, Reachable, CheckPasses, Enabled, Apply;
    match step
    case Act(a) =>
      StepLeads(cfg, m.sys, a);
      if m.pending.Some? { AsideKeepsCheck(cfg, m.sys, a, m.pending.value); }
    case Check(_) => LeadsReflexive(cfg, m.sys);
    case Write(confirmedAt, completedAt) => WriteIsRun(cfg, m.sys, m.pending.value, confirmedAt, completedAt);
  }

  /** Every such run is a protocol run, cut or not: whatever holds of reachable states and along runs
      holds of it, and a pending confirm writes what its checks still warrant. */
  lemma {:induction false} MemRunIsRun(cfg: Config, trace: seq<Mem>, steps: seq<MemStep>, i: nat, j: nat)
    requires MemRun(cfg, trace, steps) && i <= j < |trace|
    ensures Leads(cfg, trace[i].sys, trace[j].sys) && StillPasses(trace[j])
    decreases j
  {
    hide Leads, Reachable, StillPasses, MemEnabled, MemApply;
    if j == 0 {
      InitReachable(cfg, trace[0].sys);
      LeadsReflexive(cfg, trace[0].sys);
      assert StillPasses(trace[0]) by { NothingPending(trace[0]); }
    } else {
      MemRunIsRun(cfg, trace, steps, j - 1, j - 1);
      LeadsReaches(cfg, trace[j - 1].sys, trace[j - 1].sys);
      MemStepIsRun(cfg, trace[j - 1], steps[j - 1]);
      if i < j {
        MemRunIsRun(cfg, trace, steps, i, j - 1);
        LeadsChain(cfg, trace[i].sys, trace[j - 1].sys, trace[j].sys);
      } else {
        LeadsReaches(cfg, trace[j - 1].sys, trace[j].sys);
        LeadsReflexive(cfg, trace[j].sys);
      }
    }
  }

  lemma NothingPending(m: Mem)
    requires m.pending.None?
    ensures StillPasses(m)
  {
  }

  /** When the writes come, the worker owns a PROCESSING claim, and a sale takes free seats. */
  lemma WritesAreFenced(cfg: Config, trace: seq<Mem>, steps: seq<MemStep>, i: nat)
    requires MemRun(cfg, trace, steps) && i < |steps| && steps[i].Write?
    ensures trace[i].pending.Some? && trace[i].pending.value.token in trace[i].sys.workers
    ensures var p, q := trace[i].pending.value, trace[i].sys.q;
            var ticket := trace[i].sys.workers[p.token].ticket;
            && Owns(q, ticket) && q.rows[ticket.id].status.PROCESSING? && p.rid !in q.bookings
            && (p.found.None? <==> !HasConflict(q, ticket.demand))
  {
    hide Leads;
    MemRunIsRun(cfg, trace, steps, i, i);
  }

  /** Nothing gets stuck either: with nothing in flight a claim can always be made, a passed lookup can be
      followed by the check, a pending confirm can write at any time, and new requests and heartbeats
      are never held up. */
  lemma MemNeverBlocks(cfg: Config, trace: seq<Mem>, steps: seq<MemStep>, i: nat)
    requires ValidConfig(cfg) && MemRun(cfg, trace, steps) && i < |trace|
    ensures var m := trace[i];
            && (m.pending.Some? ==> forall at, completedAt :: MemEnabled(cfg, m, Write(at, completedAt)))
            && (forall a: Action | (a.Save? || a.Beat?) && Enabled(cfg, m.sys, a) :: MemEnabled(cfg, m, Act(a)))
            && (m.pending.None? && (forall token | token in m.sys.workers :: m.sys.workers[token].phase.Done?) ==>
                  forall input, head | Enabled(cfg, m.sys, ClaimNext(input, {}, head)) ::
                    MemEnabled(cfg, m, Act(ClaimNext(input, {}, head))))
            && (m.pending.None? ==>
                  && (forall a: Action | (a.Lookup? || a.Reject? || a.Throw? || a.Recover? || a.Stop?)
                                        && Enabled(cfg, m.sys, a) ::
                        MemEnabled(cfg, m, Act(a)))
                  && forall token, rid |
                       && token in m.sys.workers && m.sys.workers[token].phase.Clear?
                       && Owns(m.sys.q, m.sys.workers[token].ticket) && rid !in m.sys.q.bookings ::
                       exists found :: MemEnabled(cfg, m, Check(Pending(token, rid, found))))
  {
    var m := trace[i];
    MemRunIsRun(cfg, trace, steps, i, i);
    LeadsReaches(cfg, m.sys, m.sys);
    hide Leads, Reachable, MemRun, Enabled, Conflicts;
    if m.pending.Some? { OwnedIsRow(m.sys.q, m.sys.workers[m.pending.value.token].ticket); }
    forall token, rid |
      && m.pending.None? && token in m.sys.workers && m.sys.workers[token].phase.Clear?
      && Owns(m.sys.q, m.sys.workers[token].ticket) && rid !in m.sys.q.bookings
      ensures exists found :: MemEnabled(cfg, m, Check(Pending(token, rid, found)))
    {
      var demand := m.sys.workers[token].ticket.demand;
      if HasConflict(m.sys.q, demand) {
        var c :| c in m.sys.q.bookings && Conflicts(m.sys.q.bookings[c], demand);
        assert MemEnabled(cfg, m, Check(Pending(token, rid, Some(c))));
      } else {
        assert MemEnabled(cfg, m, Check(Pending(token, rid, None)));
      }
    }
  }

  lemma OwnedIsRow(q: State, ticket: Ticket)
    requires Owns(q, ticket)
    ensures ticket.id in q.rows
  {
  }

  /** No seat is sold twice and CONFIRMED means one reservation, at every step of every such run, and
      nothing later touches closed requests or reservations. */
  lemma OnePassInFlightIsSafe(cfg: Config, trace: seq<Mem>, steps: seq<MemStep>, i: nat, j: nat)
    requires ValidConfig(cfg) && MemRun(cfg, trace, steps) && i <= j < |trace|
    ensures Safe(cfg, trace[i].sys.q) && HistoryKept(trace[i].sys.q, trace[j].sys.q)
  {
    hide Leads, Reachable, Safe, MemRun;
    MemRunIsRun(cfg, trace, steps, i, j);
    HistoryIsKept(cfg, trace[i].sys, trace[j].sys);
    LeadsReaches(cfg, trace[i].sys, trace[j].sys);
    ReachableIsSafe(cfg, trace[i].sys);
  }

  // ---------- the class, interrupted ----------

  /** A call that another part of the process makes during the await. */
  datatype Interruption =
    | HeartbeatCall(item: ClaimedReservationRequest, at: int, expiresAt: int)
    | SaveCall(request: ReservationRequest)

  predicate Does(call: Interruption, aside: Aside) {
    match call
    case HeartbeatCall(item, at, expiresAt) => aside == HeartbeatAside(TicketOf(item), at, expiresAt)
    case SaveCall(request) => aside.SaveAside? && aside.id == request.id && aside.demand == DemandOf(request)
  }

  method Interrupt(repository: WorkRepository, call: Interruption) returns (exhausted: bool, ghost aside: Aside)
    requires repository.store.Valid() && (call.SaveCall? ==> call.request.status.REQUESTED?)
    modifies repository.store
    ensures exhausted || repository.store.Valid()
    ensures !exhausted ==> repository.store.View() == After(old(repository.store.View()), [aside])
    ensures Does(call, aside)
    ensures exhausted <==> && call.SaveCall? && call.request.id !in old(repository.store.requestsById)
                           && old(repository.store.nextSequence) > MAX_SAFE_INTEGER
    ensures !exhausted ==> repository.store.nextSequence <= old(repository.store.nextSequence) + 1
    ensures !exhausted ==> forall id | id in old(repository.store.requestsById) ::
              id in repository.store.requestsById
                  && repository.store.requestsById[id] == old(repository.store.requestsById)[id]
  {
    var store := repository.store;
    ghost var before := store.View();
    exhausted := false;
    match call
    case HeartbeatCall(item, at, expiresAt) =>
      aside := HeartbeatAside(TicketOf(item), at, expiresAt);
      var _ := repository.HeartbeatClaimedReservationRequest(item, at, expiresAt);
      assert After(before, []) == before;
    case SaveCall(request) =>
      aside := SaveAside(request.id, DemandOf(request), store.nextSequence);
      var saved := store.SaveReservationRequest(request);
      exhausted := saved == Err(SequenceExhausted);
      assert After(before, []) == before;
  }

  /** Confirm with other calls made during its await, followed until one of them exhausts the
      sequence. It passes or fails on the queue it started with;
      its writes are applied to the queue the other calls have left, and for the reservation the
      processor builds they are the sale of the runs above. */
  method ConfirmAcrossAwait(repository: WorkRepository, item: ClaimedReservationRequest, reservation: Reservation,
                            attempt: Attempt, calls: seq<Interruption>)
    returns (exhausted: bool, r: Result<ConfirmResult, WorkError>, ghost asides: seq<Aside>)
    requires repository.store.Valid()
    requires forall call | call in calls && call.SaveCall? :: call.request.status.REQUESTED?
    modifies repository.store
    ensures exhausted || repository.store.Valid()
    ensures exhausted ==> old(repository.store.nextSequence) + |calls| > MAX_SAFE_INTEGER
    ensures !exhausted && r.Ok? ==> |asides| == |calls| && forall i | 0 <= i < |calls| :: Does(calls[i], asides[i])
    ensures !exhausted ==>
              (r.Ok? <==> && Owns(old(repository.store.View()), TicketOf(item))
                          && reservation.id !in old(repository.store.View()).bookings)
    ensures !exhausted && r.Err? ==> repository.store.View() == old(repository.store.View())
    ensures !exhausted && r.Ok? ==>
              var before, ticket := old(repository.store.View()), TicketOf(item);
              var mid := After(before, asides);
              && |asides| == |calls| && Owns(mid, ticket) && mid.bookings == before.bookings
              && (r.value.ConfirmedResult? <==> !HasConflict(before, BookingOf(reservation).demand))
              && (r.value.ConfirmedResult? ==>
                    repository.store.View()
                    == Book(Settle(mid, ticket.id, CONFIRMED, false, attempt), reservation.id, BookingOf(reservation)))
              && (r.value.ConfirmedResult? && BookingOf(reservation) == BookingFor(ticket, reservation.confirmedAt) ==>
                    repository.store.View() == Sell(mid, ticket, reservation.id, reservation.confirmedAt, attempt))
              && (r.value.RejectedResult? ==>
                    && r.value.attempt.outcome.Rejected?
                    && var c := r.value.attempt.outcome.conflictingReservationId;
                    && c in mid.bookings && Conflicts(mid.bookings[c], BookingOf(reservation).demand)
                    && repository.store.View() == Settle(mid, ticket.id, REJECTED, false, r.value.attempt))
  {
    hide HasConflict, Conflicts, After, Does;
    var store := repository.store;
    ghost var before := store.View();
    exhausted, asides := false, [];
    var current := repository.RequireClaimedProcessingRequest(item);
    if current.Err? {
      r := Err(current.error);
      return;
    }
    if reservation.id in store.reservationsById {
      r := Err(ReservationExists);
      return;
    }
    var conflict := repository.FindConflictingConfirmedReservation(reservation.screeningId, reservation.seatIds);
    LookupFindsConflicts(store.reservationsById, conflict, reservation.screeningId, reservation.seatIds,
                         BookingOf(reservation).demand);
    NothingAside(before);
    for i := 0 to |calls|
      invariant store.Valid() && |asides| == i && store.View() == After(before, asides)
      invariant store.nextSequence <= old(store.nextSequence) + i
      invariant forall k | 0 <= k < i :: Does(calls[k], asides[k])
      invariant current.value.id in store.requestsById && store.requestsById[current.value.id] == current.value
    {
      ghost var aside;
      exhausted, aside := Interrupt(repository, calls[i]);
      if exhausted { return true, Err(NotFound), asides; }
      AfterOneMore(before, asides, aside);
      asides := asides + [aside];
    }
    OwnedSurvivesAwait(before, asides, TicketOf(item));
    if BookingOf(reservation) == BookingFor(TicketOf(item), reservation.confirmedAt) {
      BuiltReservationIsSale(store.View(), TicketOf(item), reservation, attempt);
    }
    var result := repository.FinishConfirm(current.value, conflict, item, reservation, attempt);
    r := Ok(result);
  }

  lemma NothingAside(q: State)
    ensures After(q, []) == q
  {
  }

  lemma BuiltReservationIsSale(q: State, ticket: Ticket, reservation: Reservation, attempt: Attempt)
    requires ticket.id in q.rows && BookingOf(reservation) == BookingFor(ticket, reservation.confirmedAt)
    ensures Book(Settle(q, ticket.id, CONFIRMED, false, attempt), reservation.id, BookingOf(reservation))
         == Sell(q, ticket, reservation.id, reservation.confirmedAt, attempt)
  {
  }
}
