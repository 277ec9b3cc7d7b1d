/** One process: the service and the processor take turns on the in-memory store. Every such
    history is a run of the protocol, so whatever holds of runs holds of it. */
module SerialRuns {
  import opened Domain
  import opened Queue
  import opened Protocol
  import opened ProtocolInvariant
  import opened Safety
  import opened InMemoryStore
  import opened Processor
  import opened Service

  // ---------- extending runs ----------

  /** Two runs that meet in a state make one run. */
  lemma SpliceRuns(cfg: Config, trace: seq<Sys>, acts: seq<Action>, j: nat,
                   trace': seq<Sys>, acts': seq<Action>, i: nat)
    requires Run(cfg, trace, acts) && j < |trace| && i < |trace'| == |acts'| + 1 && trace[j] == trace'[i]
    requires forall k | 0 <= k < |acts'| ::
               Enabled(cfg, trace'[k], acts'[k]) && trace'[k + 1] == Apply(cfg, trace'[k], acts'[k])
    ensures Run(cfg, trace[..j] + trace'[i..], acts[..j] + acts'[i..])
  {
    hide Enabled, Apply, Init;
    var joined, steps := trace[..j] + trace'[i..], acts[..j] + acts'[i..];
    forall k | 0 <= k < |steps|
      ensures Enabled(cfg, joined[k], steps[k]) && joined[k + 1] == Apply(cfg, joined[k], steps[k])
    {
      if k < j {
        assert steps[k] == acts[k] && joined[k] == trace[k] && joined[k + 1] == trace[k + 1];
      } else {
        var m := k - j + i;
        assert steps[k] == acts'[m] && joined[k] == trace'[m] && joined[k + 1] == trace'[m + 1];
      }
    }
  }

  /** A reachable state followed by an action it enables. */
  lemma StepLeads(cfg: Config, s: Sys, a: Action)
    requires Reachable(cfg, s) && Enabled(cfg, s, a)
    ensures Leads(cfg, s, Apply(cfg, s, a))
  {
    hide Enabled, Apply, Run;
    var trace, acts, i: nat :| Run(cfg, trace, acts) && i < |trace| && trace[i] == s;
    RunLength(cfg, trace, acts);
    SpliceRuns(cfg, trace, acts, i, [s, Apply(cfg, s, a)], [a], 0);
    var longer := trace[..i] + [s, Apply(cfg, s, a)];
    assert longer[i] == s && longer[i + 1] == Apply(cfg, s, a);
    assert [s, Apply(cfg, s, a)][0..] == [s, Apply(cfg, s, a)] && [a][0..] == [a];
  }

  lemma RunLength(cfg: Config, trace: seq<Sys>, acts: seq<Action>)
    requires Run(cfg, trace, acts)
    ensures |trace| == |acts| + 1
  {
  }

  lemma LeadsChain(cfg: Config, a: Sys, b: Sys, c: Sys)
    requires Leads(cfg, a, b) && Leads(cfg, b, c)
    ensures Leads(cfg, a, c)
  {
    hide Enabled, Apply, Init;
    var trace, acts, i: nat, j: nat :| Run(cfg, trace, acts) && i <= j < |trace| && trace[i] == a && trace[j] == b;
    var trace', acts', i': nat, j': nat :|
      Run(cfg, trace', acts') && i' <= j' < |trace'| && trace'[i'] == b && trace'[j'] == c;
    SpliceRuns(cfg, trace, acts, j, trace', acts', i');
    var joined := trace[..j] + trace'[i'..];
    assert joined[j] == trace'[i'] && joined[j + (j' - i')] == c;
    assert joined[i] == a;
  }

  lemma LeadsReflexive(cfg: Config, s: Sys)
    requires Reachable(cfg, s)
    ensures Leads(cfg, s, s)
  {
    hide Run;
  }

  lemma ThenStep(cfg: Config, first: Sys, s: Sys, a: Action)
    requires Leads(cfg, first, s) && Enabled(cfg, s, a)
    ensures Leads(cfg, first, Apply(cfg, s, a))
  {
    hide Enabled, Apply, Leads;
    LeadsReaches(cfg, first, s);
    StepLeads(cfg, s, a);
    LeadsChain(cfg, first, s, Apply(cfg, s, a));
  }

  // ---------- one processor call ----------

  /** Whatever one call does, with whatever faults, the protocol can do. */
  lemma CallIsRun(cfg: Config, s: Sys, input: ClaimInput, head: Option<RequestId>, verdict: Verdict, after: State)
    returns (s': Sys)
    requires Reachable(cfg, s) && input.claimToken !in s.workers
    requires input.maxTransientFailures == cfg.maxTransientFailures && input.maxLeaseTimeouts == cfg.maxLeaseTimeouts
    requires CallEffect(input, s.q, head, verdict, after)
    ensures Leads(cfg, s, s') && s'.q == after
    ensures s'.workers.Keys <= s.workers.Keys + {input.claimToken}
  {
    hide Reachable, Leads, NothingEligible, HasConflict, Conflicts, WellPlaced;
    var claim := ClaimNext(input, {}, head);
    StepLeads(cfg, s, claim);
    s' := Apply(cfg, s, claim);
    if Gets(input, s.q, head) {
      s' := VerdictIsRun(cfg, s, s', input, s'.workers[input.claimToken].ticket, verdict, after);
    }
  }

  lemma VerdictIsRun(cfg: Config, s: Sys, claimed: Sys, input: ClaimInput, ticket: Ticket, verdict: Verdict,
                     after: State)
    returns (s': Sys)
    requires Leads(cfg, s, claimed) && input.claimToken in claimed.workers
    requires claimed.workers[input.claimToken] == Worker(ticket, input.claimedAt, Looking)
    requires Effect(cfg.maxTransientFailures, input.claimedAt, claimed.q, ticket, verdict, after)
    ensures Leads(cfg, s, s') && s'.q == after && s'.workers.Keys == claimed.workers.Keys
  {
    hide Leads, HasConflict, Conflicts, WellPlaced;
    var token := input.claimToken;
    s' := claimed;
    match verdict
    case Kept =>
    case Sold(rid, confirmedAt, attempt) =>
      ThenStep(cfg, s, s', Lookup(token, None));
      s' := Apply(cfg, s', Lookup(token, None));
      ThenStep(cfg, s, s', Commit(token, rid, confirmedAt, attempt.completedAt));
      s' := Apply(cfg, s', Commit(token, rid, confirmedAt, attempt.completedAt));
    case Refused(attempt) =>
      var found := Some(attempt.outcome.conflictingReservationId);
      ThenStep(cfg, s, s', Lookup(token, found));
      s' := Apply(cfg, s', Lookup(token, found));
      ThenStep(cfg, s, s', Reject(token, attempt.completedAt));
      s' := Apply(cfg, s', Reject(token, attempt.completedAt));
    case Erred(attempt) =>
      ThenStep(cfg, s, s', Throw(token));
      s' := Apply(cfg, s', Throw(token));
      ThenStep(cfg, s, s', Recover(token, attempt.completedAt));
      s' := Apply(cfg, s', Recover(token, attempt.completedAt));
  }

  // ---------- a whole history ----------

  /** One use of the system: a request accepted by the service, or one processor call. */
  datatype Use =
    | Requested(id: RequestId, demand: Demand, sequence: nat)
    | Called(input: ClaimInput, head: Option<RequestId>, verdict: Verdict)

  ghost predicate Uses(cfg: Config, before: State, use: Use, after: State) {
    match use
    case Requested(id, demand, sequence) =>
      && id !in before.rows && WellPlaced(cfg.catalog, demand)
      && (forall other | other in before.rows :: before.rows[other].sequence < sequence)
      && after == Enqueue(before, id, demand, sequence)
    case Called(input, head, verdict) =>
      && input.maxTransientFailures == cfg.maxTransientFailures && input.maxLeaseTimeouts == cfg.maxLeaseTimeouts
      && CallEffect(input, before, head, verdict, after)
  }

  /** `trace[i]` is the queue before use `i`; it starts with freshly requested rows only, and no claim
      token is used twice. */
  ghost predicate History(cfg: Config, trace: seq<State>, uses: seq<Use>) {
    && |trace| == |uses| + 1 && Init(cfg, Sys(trace[0], map[]))
    && (forall i | 0 <= i < |uses| :: Uses(cfg, trace[i], uses[i], trace[i + 1]))
    && forall i, j | 0 <= i < j < |uses| && uses[i].Called? && uses[j].Called? ::
         uses[i].input.claimToken != uses[j].input.claimToken
  }

  ghost function TokensOf(uses: seq<Use>): set<ClaimToken> {
    set use | use in uses && use.Called? :: use.input.claimToken
  }

  /** The states of a history are the queues of states along one protocol run. */
  lemma {:induction false} HistoryIsRun(cfg: Config, trace: seq<State>, uses: seq<Use>) returns (systems: seq<Sys>)
    requires History(cfg, trace, uses)
    ensures |systems| == |trace|
    ensures forall i | 0 <= i < |trace| :: systems[i].q == trace[i]
    ensures forall i, j | 0 <= i <= j < |trace| :: Leads(cfg, systems[i], systems[j])
    ensures systems[|uses|].workers.Keys <= TokensOf(uses)
    decreases |uses|
  {
    hide Leads, Reachable, Uses;
    if uses == [] {
      systems := [Sys(trace[0], map[])];
      InitReachable(cfg, systems[0]);
      LeadsReflexive(cfg, systems[0]);
    } else {
      var n := |uses| - 1;
      var earlier := HistoryIsRun(cfg, trace[..n + 1], uses[..n]);
      assert Leads(cfg, earlier[n], earlier[n]);
      LeadsReaches(cfg, earlier[n], earlier[n]);
      assert uses[n].Called? ==> uses[n].input.claimToken !in TokensOf(uses[..n]);
      var s' := UseIsRun(cfg, earlier[n], uses[n], trace[n + 1]);
      systems := earlier + [s'];
      forall i | 0 <= i <= n ensures Leads(cfg, systems[i], s') {
        assert Leads(cfg, earlier[i], earlier[n]);
        LeadsChain(cfg, systems[i], earlier[n], s');
      }
      LeadsReaches(cfg, earlier[n], s');
      LeadsReflexive(cfg, s');
    }
  }

  lemma InitReachable(cfg: Config, s: Sys)
    requires Init(cfg, s)
    ensures Reachable(cfg, s)
  {
    assert Run(cfg, [s], []) && [s][0] == s;
  }

  /** A store created with distinct, well-placed, freshly requested requests can start a history. */
  lemma FreshSeedsMayStart(cfg: Config, requests: seq<ReservationRequest>)
    requires forall i, j | 0 <= i < j < |requests| :: requests[i].id != requests[j].id
    requires forall i | 0 <= i < |requests| ::
               requests[i].status.REQUESTED? && WellPlaced(cfg.catalog, DemandOf(requests[i]))
    ensures Init(cfg, Sys(State(SeedRows(requests), SeedBookings([]), SeedLog([])), map[]))
  {
    hide WellPlaced, DemandOf;
    var rows := SeedRows(requests);
    SeededIds(requests);
    forall id | id in rows
      ensures exists i :: 0 <= i < |requests| && requests[i].id == id
                          && rows[id] == Row(DemandOf(requests[i]), REQUESTED, i + 1, 0, 0, None)
    {
      var i :| 0 <= i < |requests| && requests[i].id == id;
      SeededInOrder(requests, i);
    }
    hide SeedRows;
  }

  lemma UseIsRun(cfg: Config, s: Sys, use: Use, after: State) returns (s': Sys)
    requires Reachable(cfg, s) && Uses(cfg, s.q, use, after)
    requires use.Called? ==> use.input.claimToken !in s.workers
    ensures Leads(cfg, s, s') && s'.q == after
    ensures s'.workers.Keys <= s.workers.Keys + if use.Called? then {use.input.claimToken} else {}
  {
    hide Reachable, Leads, CallEffect;
    match use
    case Requested(id, demand, sequence) =>
      StepLeads(cfg, s, Save(id, demand, sequence));
      s' := Apply(cfg, s, Save(id, demand, sequence));
    case Called(input, head, verdict) =>
      s' := CallIsRun(cfg, s, input, head, verdict, after);
  }

  /** A rejected request's last attempt names another request's reservation that shares a seat. */
  ghost predicate RejectedForCause(q: State, id: RequestId)
    requires id in q.rows
  {
    var log := LogOf(q.log, id);
    && log != [] && log[|log| - 1].outcome.Rejected?
    && var c := log[|log| - 1].outcome.conflictingReservationId;
    && c in q.bookings && q.bookings[c].requestId != id && Conflicts(q.bookings[c], q.rows[id].demand)
  }

  ghost predicate RequestIsSafe(cfg: Config, q: State, id: RequestId)
    requires id in q.rows
  {
    && WellPlaced(cfg.catalog, q.rows[id].demand)
    && (q.rows[id].status.CONFIRMED? <==> |ReservationsOf(q, id)| == 1)
    && (!q.rows[id].status.CONFIRMED? <==> ReservationsOf(q, id) == {})
    && (forall rid | rid in ReservationsOf(q, id) :: q.bookings[rid].demand == q.rows[id].demand)
    && (q.rows[id].status.REJECTED? ==> RejectedForCause(q, id))
  }

  /** No seat is sold twice; CONFIRMED means exactly one reservation, anything else none; reservations
      grant what was asked for, inside the provider's screening; rejections have their cause. */
  ghost predicate Safe(cfg: Config, q: State) {
    && Disjoint(q)
    && (forall id | id in q.rows :: RequestIsSafe(cfg, q, id))
    && forall rid | rid in q.bookings :: q.bookings[rid].requestId in q.rows
  }

  lemma ReachableIsSafe(cfg: Config, s: Sys)
    requires ValidConfig(cfg) && Reachable(cfg, s)
    ensures Safe(cfg, s.q)
  {
    ReachableInv(cfg, s);
    forall id | id in s.q.rows ensures RequestIsSafe(cfg, s.q, id) {
      ReachableRequestIsSafe(cfg, s, id);
    }
    hide Reachable, RowOk, WorkerOk;
    forall rid | rid in s.q.bookings ensures s.q.bookings[rid].requestId in s.q.rows {
      assert BookingOk(s.q, rid);
    }
  }

  lemma ReachableRequestIsSafe(cfg: Config, s: Sys, id: RequestId)
    requires ValidConfig(cfg) && Reachable(cfg, s) && id in s.q.rows
    ensures RequestIsSafe(cfg, s.q, id)
  {
    ConfirmedMeansOneReservation(cfg, s, id);
    hide Leads;
    LeadsReflexive(cfg, s);
    if s.q.rows[id].status.REJECTED? { var _ := RejectionStaysJustified(cfg, s, s, id); }
    hide Reachable, WellPlaced, Conflicts, ReservationsOf;
    assert WellPlaced(cfg.catalog, s.q.rows[id].demand) by {
      ReachableInv(cfg, s);
      assert RowOk(cfg, s, id);
    }
  }

  /** One process is safe at all times, and no later use touches a closed request or a reservation. */
  lemma HistoryIsSafe(cfg: Config, trace: seq<State>, uses: seq<Use>, i: nat, j: nat)
    requires ValidConfig(cfg) && History(cfg, trace, uses) && i <= j < |trace|
    ensures Safe(cfg, trace[i]) && HistoryKept(trace[i], trace[j])
  {
    hide Leads, Reachable, HistoryKept, Safe;
    var systems := HistoryIsRun(cfg, trace, uses);
    assert Leads(cfg, systems[i], systems[j]);
    LeadsReaches(cfg, systems[i], systems[j]);
    HistoryIsKept(cfg, systems[i], systems[j]);
    ReachableIsSafe(cfg, systems[i]);
  }

  // ---------- the classes in turn ----------

  /** What a caller asks of the process: a reservation request, or one poll with its faults. */
  datatype Command =
    | Ask(movieProviderId: ProviderId, userId: UserId, newId: RequestId, screeningId: ScreeningId, seatIds: seq<SeatId>)
    | Work(env: Surroundings, faults: set<Site>)

  /** No claim token is generated twice. */
  ghost predicate FreshTokens(commands: seq<Command>) {
    forall i, j | 0 <= i < j < |commands| && commands[i].Work? && commands[j].Work? ::
      commands[i].env.claimToken != commands[j].env.claimToken
  }

  /** A request is accepted unless it is ill-placed, repeats a seat or reuses an id; a poll always calls
      the processor, under its worker's id and lease, unless the claim itself threw. */
  ghost predicate Obeyed(cfg: Config, options: Options, command: Command, before: State, use: Option<Use>, after: State)
  {
    && (use.None? ==> after == before)
    && (use.Some? ==> Uses(cfg, before, use.value, after))
    && match command
       case Ask(movieProviderId, userId, newId, screeningId, seatIds) =>
         var demand := Demand(movieProviderId, screeningId, SeatSet(seatIds), userId);
         if WellPlaced(cfg.catalog, demand) && NoDuplicates(seatIds) && newId !in before.rows then
           use.Some? && use.value.Requested? && use.value.id == newId && use.value.demand == demand
         else use.None?
       case Work(env, faults) =>
         if ClaimCall in faults then use.None?
         else
           && use.Some? && use.value.Called?
           && use.value.input == ClaimInput(
                options.workerId, env.claimToken, env.startedAt, env.startedAt + options.claimLeaseMs,
                options.maxLeaseTimeouts, options.maxTransientFailures)
  }

  /** One command is one use of the system, or none. */
  method Obey(processor: ReservationRequestProcessor, command: Command, ghost cfg: Config)
    returns (exhausted: bool, ghost use: Option<Use>)
    requires processor.repository.store.Valid() && cfg.catalog == processor.repository.store.catalog
    requires cfg.maxTransientFailures == processor.options.maxTransientFailures
    requires cfg.maxLeaseTimeouts == processor.options.maxLeaseTimeouts
    modifies processor.repository.store
    ensures exhausted || processor.repository.store.Valid()
    ensures !exhausted ==> Obeyed(cfg, processor.options, command, old(processor.repository.store.View()), use,
                                  processor.repository.store.View())
    ensures exhausted ==> command.Ask? && old(processor.repository.store.nextSequence) > MAX_SAFE_INTEGER
    ensures !exhausted ==>
              processor.repository.store.nextSequence <= old(processor.repository.store.nextSequence) + 1
  {
    hide CallEffect, Reports, Fulfils, FateOf, OnlyStatusesChange, NoDuplicates;
    var store := processor.repository.store;
    store.SameKeys();
    exhausted, use := false, None;
    match command
    case Ask(movieProviderId, userId, newId, screeningId, seatIds) =>
      ghost var sequence := store.nextSequence;
      var requested := RequestReservation(store, movieProviderId, userId, newId, screeningId, seatIds);
      if requested.Ok? {
        use := Some(Requested(newId, Demand(movieProviderId, screeningId, SeatSet(seatIds), userId), sequence));
      } else {
        exhausted := requested.error == NotSaved(SequenceExhausted);
      }
    case Work(env, faults) =>
      var _, head, verdict := processor.ProcessNextPendingRequest(env, faults);
      if ClaimCall !in faults {
        use := Some(Called(processor.ClaimInputFor(env), head, verdict));
      }
  }

  /** Carries out commands on a store of freshly requested rows, one after the other, until one exhausts the sequence.
      Whatever they are and whatever throws, the store is safe after every command, and what was
      closed or sold before stays as it was. `states[i]` is the queue before command `i`. */
  method Serve(processor: ReservationRequestProcessor, commands: seq<Command>)
    returns (exhausted: bool, ghost states: seq<State>, ghost used: seq<Option<Use>>)
    requires processor.repository.store.Valid()
    requires Init(Config(processor.options.maxTransientFailures, processor.options.maxLeaseTimeouts,
                         processor.repository.store.catalog), Sys(processor.repository.store.View(), map[]))
    requires processor.options.maxTransientFailures >= 1 && FreshTokens(commands)
    modifies processor.repository.store
    ensures exhausted || (processor.repository.store.Valid() && |states| == |commands| + 1)
    ensures 0 < |states| <= |commands| + 1
    ensures !exhausted ==> states[|commands|] == processor.repository.store.View()
    ensures exhausted ==> old(processor.repository.store.nextSequence) + |commands| > MAX_SAFE_INTEGER
    ensures var cfg := Config(processor.options.maxTransientFailures, processor.options.maxLeaseTimeouts,
                              processor.repository.store.catalog);
            && |used| == |states| - 1 && states[0] == old(processor.repository.store.View())
            && forall i | 0 <= i < |used| ::
                 Obeyed(cfg, processor.options, commands[i], states[i], used[i], states[i + 1])
    ensures var cfg := Config(processor.options.maxTransientFailures, processor.options.maxLeaseTimeouts,
                              processor.repository.store.catalog);
            forall i, j | 0 <= i <= j < |states| :: Safe(cfg, states[i]) && HistoryKept(states[i], states[j])
  {
    hide Uses, Safe, HistoryKept, Obeyed;
    var store := processor.repository.store;
    ghost var cfg := Config(processor.options.maxTransientFailures, processor.options.maxLeaseTimeouts, store.catalog);
    ghost var trace: seq<State>, uses: seq<Use>, at: seq<nat> := [store.View()], [], [0];
    states, used := [store.View()], [];
    exhausted := false;
    for i := 0 to |commands|
      invariant !exhausted && store.Valid() && History(cfg, trace, uses) && trace[|uses|] == store.View()
      invariant TokensOf(uses) <= set c | c in commands[..i] && c.Work? :: c.env.claimToken
      invariant |states| == |at| == i + 1 && at[i] == |uses| && states[i] == store.View()
      invariant Samples(trace, states, at)
      invariant store.nextSequence <= old(store.nextSequence) + i
      invariant |used| == i && states[0] == old(store.View())
      invariant forall k | 0 <= k < i :: Obeyed(cfg, processor.options, commands[k], states[k], used[k], states[k + 1])
    {
      ghost var use;
      exhausted, use := Obey(processor, commands[i], cfg);
      if exhausted { break; }
      assert commands[i] in commands[..i + 1];
      ObeyedUses(cfg, processor.options, commands[i], states[i], use, store.View());
      if use.Some? {
        assert use.value.Called? ==> use.value.input.claimToken !in TokensOf(uses);
        HistoryGrows(cfg, trace, uses, use.value, store.View());
        trace, uses := trace + [store.View()], uses + [use.value];
      }
      states, at, used := states + [store.View()], at + [|uses|], used + [use];
    }
    forall i, j | 0 <= i <= j < |states| ensures Safe(cfg, states[i]) && HistoryKept(states[i], states[j]) {
      HistoryIsSafe(cfg, trace, uses, at[i], at[j]);
    }
  }

  lemma ObeyedUses(cfg: Config, options: Options, command: Command, before: State, use: Option<Use>, after: State)
    requires Obeyed(cfg, options, command, before, use, after)
    ensures use.None? ==> after == before
    ensures use.Some? ==> Uses(cfg, before, use.value, after)
    ensures use.Some? && use.value.Called? ==> command.Work? && use.value.input.claimToken == command.env.claimToken
  {
  }

  /** `states` are the trace's states at the positions `at`, in order. */
  ghost predicate Samples(trace: seq<State>, states: seq<State>, at: seq<nat>) {
    && |states| == |at|
    && (forall i | 0 <= i < |at| :: at[i] < |trace| && states[i] == trace[at[i]])
    && forall i, j | 0 <= i <= j < |at| :: at[i] <= at[j]
  }

  lemma HistoryGrows(cfg: Config, trace: seq<State>, uses: seq<Use>, use: Use, after: State)
    requires History(cfg, trace, uses) && Uses(cfg, trace[|uses|], use, after)
    requires use.Called? ==> use.input.claimToken !in TokensOf(uses)
    ensures History(cfg, trace + [after], uses + [use])
    ensures TokensOf(uses + [use]) == TokensOf(uses) + if use.Called? then {use.input.claimToken} else {}
  {
    hide Uses;
    forall i | 0 <= i < |uses| && uses[i].Called? ensures uses[i].input.claimToken in TokensOf(uses) {
      assert uses[i] in uses;
    }
    forall token ensures token in TokensOf(uses + [use])
                  <==> token in TokensOf(uses) || (use.Called? && token == use.input.claimToken)
    {
      assert use in uses + [use] && forall u | u in uses :: u in uses + [use];
    }
  }
}
