/** One worker polling the in-memory store while nothing but the failure policy interferes. */
module Polling {
  import opened Domain
  import opened Queue
  import opened Protocol
  import opened InMemoryStore
  import opened InMemoryWorkRepository
  import opened Processor
  import opened Drain

  /** Every stored request went through its factory. */
  ghost predicate WellFormed(requests: map<RequestId, ReservationRequest>) {
    forall id | id in requests :: requests[id].seatIds != [] && NoDuplicates(requests[id].seatIds)
  }

  lemma StatusesKeepWellFormed(before: map<RequestId, ReservationRequest>, after: map<RequestId, ReservationRequest>)
    requires WellFormed(before) && OnlyStatusesChange(before, after)
    ensures WellFormed(after)
  {
  }

  /** One stable policy for all polls, and reservation ids that are new and used once. */
  ghost predicate Supplied(polls: seq<Surroundings>, policy: RequestId -> bool, used: set<ReservationId>) {
    && (forall i | 0 <= i < |polls| :: polls[i].policy == policy && polls[i].reservationId !in used)
    && forall i, j | 0 <= i < j < |polls| :: polls[i].reservationId != polls[j].reservationId
  }

  /** A quiet call adds no reservation but its own. */
  lemma CallAddsOne(cfg: Config, policy: RequestId -> bool, input: ClaimInput, before: State,
                    head: Option<RequestId>, verdict: Verdict, after: State)
    requires QuietCall(cfg, policy, input, before, head, verdict, after)
    ensures after.bookings.Keys
         <= before.bookings.Keys + if Gets(input, before, head) && verdict.Sold? then {verdict.rid} else {}
  {
  }

  lemma GoodSeats(requests: map<RequestId, ReservationRequest>, id: RequestId)
    requires WellFormed(requests) && id in requests
    ensures requests[id].seatIds != [] && NoDuplicates(requests[id].seatIds)
  {
  }

  lemma SoldUnderGivenId(verdict: Verdict, fate: Fate, env: Surroundings)
    requires Fulfils(verdict, fate, env) && verdict.Sold?
    ensures verdict.rid == env.reservationId
  {
  }

  method Poll(processor: ReservationRequestProcessor, cfg: Config, env: Surroundings) returns (ghost made: Made)
    requires processor.repository.store.Valid() && WellFormed(processor.repository.store.requestsById)
    requires processor.options.maxTransientFailures == cfg.maxTransientFailures
    requires processor.options.maxLeaseTimeouts == cfg.maxLeaseTimeouts
    requires env.reservationId !in processor.repository.store.reservationsById
    modifies processor.repository.store
    ensures processor.repository.store.Valid() && WellFormed(processor.repository.store.requestsById)
    ensures QuietCall(cfg, env.policy, made.input, old(processor.repository.store.View()), made.head, made.verdict,
                      processor.repository.store.View())
    ensures processor.repository.store.reservationsById.Keys
         <= old(processor.repository.store.reservationsById.Keys) + {env.reservationId}
  {
    var store := processor.repository.store;
    ghost var before, requests := store.View(), store.requestsById;
    var _, head, verdict := processor.ProcessNextPendingRequest(env, {});
    ghost var input, after := processor.ClaimInputFor(env), store.View();
    made := Made(input, head, verdict);
    hide QuietCall, WellFormed, CallEffect, Fulfils, FateOf, Reports, OnlyStatusesChange, RowsOf;
    StatusesKeepWellFormed(requests, store.requestsById);
    QuietPoll(cfg, env, requests, before, made, after);
    assert after.bookings.Keys == store.reservationsById.Keys;
  }

  /** What a poll without faults did, on well-formed requests and with a new reservation id. */
  lemma QuietPoll(cfg: Config, env: Surroundings, requests: map<RequestId, ReservationRequest>, before: State,
                  made: Made, after: State)
    requires made.input.maxTransientFailures == cfg.maxTransientFailures
    requires made.input.maxLeaseTimeouts == cfg.maxLeaseTimeouts
    requires CallEffect(made.input, before, made.head, made.verdict, after)
    requires WellFormed(requests) && env.reservationId !in before.bookings
    requires Gets(made.input, before, made.head) ==>
               var id := made.head.value;
               && id in requests
               && Fulfils(made.verdict,
                          FateOf(ClaimHead(before, id, made.input), TicketFor(id, before.rows[id], made.input),
                                               requests[id].seatIds, env, {}), env)
    ensures QuietCall(cfg, env.policy, made.input, before, made.head, made.verdict, after)
    ensures after.bookings.Keys <= before.bookings.Keys + {env.reservationId}
  {
    hide QuietCall, WellFormed, CallEffect, Fulfils, FateOf, ClaimHead, TicketFor;
    var seatIds := if Gets(made.input, before, made.head) then requests[made.head.value].seatIds else [];
    if Gets(made.input, before, made.head) {
      var id := made.head.value;
      GoodSeats(requests, id);
      if made.verdict.Sold? {
        SoldUnderGivenId(made.verdict,
                         FateOf(ClaimHead(before, id, made.input), TicketFor(id, before.rows[id], made.input),
                                              seatIds, env, {}), env);
      }
    }
    FaultFreeCallIsQuiet(cfg, env, made.input, before, made.head, made.verdict, after, seatIds);
    CallAddsOne(cfg, env.policy, made.input, before, made.head, made.verdict, after);
  }

  /** As many polls as the plan asks for drain the queue as planned, and leave no work. */
  method DrainQueue(processor: ReservationRequestProcessor, cfg: Config, polls: seq<Surroundings>,
                    ghost policy: RequestId -> bool, ghost order: seq<RequestId>)
    requires processor.repository.store.Valid() && WellFormed(processor.repository.store.requestsById)
    requires processor.options.maxTransientFailures == cfg.maxTransientFailures
    requires processor.options.maxLeaseTimeouts == cfg.maxLeaseTimeouts
    requires Supplied(polls, policy, processor.repository.store.reservationsById.Keys)
    requires Ready(cfg, processor.repository.store.View()) && QueueOrder(processor.repository.store.View(), order)
    requires var q := processor.repository.store.View();
             |polls| == Calls(cfg, q, order, Plan(q, order, policy))
    modifies processor.repository.store
    ensures processor.repository.store.Valid()
    ensures var before, after := old(processor.repository.store.View()), processor.repository.store.View();
            && DrainedAs(cfg, before, after, order, Plan(before, order, policy))
            && forall input :: NothingEligible(after, input, {})
  {
    hide Ready, QueueOrder, Calls, Plan, DrainedAs, NothingEligible, QuietCall, WellFormed, CallEffect, Fulfils,
        FateOf, Reports;
    var store := processor.repository.store;
    ghost var trace, calls := [store.View()], [];
    for i := 0 to |polls|
      invariant store.Valid() && WellFormed(store.requestsById)
      invariant |trace| == i + 1 && |calls| == i && trace[0] == old(store.View()) && trace[i] == store.View()
      invariant Drains(cfg, policy, trace, calls)
      invariant Supplied(polls[i..], policy, store.reservationsById.Keys)
    {
      ghost var made := Poll(processor, cfg, polls[i]);
      trace, calls := trace + [store.View()], calls + [made];
    }
    DrainIsGreedy(cfg, policy, trace, calls, order);
  }
}
