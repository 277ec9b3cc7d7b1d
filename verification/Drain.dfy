/** One worker draining the queue, against a one-pass greedy allocation in sequence order. */
module Drain {
  import opened Domain
  import opened Queue
  import opened Protocol
  import opened ProtocolInvariant
  import opened Processor

  // ---------- the allocation ----------

  function Wants(demand: Demand): set<(ScreeningId, SeatId)> {
    set seat | seat in demand.seats :: (demand.screening, seat)
  }

  datatype Item = Item(id: RequestId, demand: Demand)

  function Award(item: Item, sold: set<(ScreeningId, SeatId)>, policy: RequestId -> bool): Status {
    if Wants(item.demand) * sold != {} then REJECTED else if policy(item.id) then FAILED else CONFIRMED
  }

  /** First come, first served: each request is rejected if a seat is gone, else failed if the policy
      says so, else it takes its seats. */
  function Allocate(items: seq<Item>, sold: set<(ScreeningId, SeatId)>, policy: RequestId -> bool)
    : (awards: seq<Status>)
    ensures |awards| == |items|
  {
    if items == [] then []
    else
      var award := Award(items[0], sold, policy);
      [award] + Allocate(items[1..], if award.CONFIRMED? then sold + Wants(items[0].demand) else sold, policy)
  }

  /** The seats gone after an allocation. */
  function Taken(items: seq<Item>, awards: seq<Status>): set<(ScreeningId, SeatId)>
    requires |items| == |awards|
  {
    if items == [] then {}
    else (if awards[0].CONFIRMED? then Wants(items[0].demand) else {}) + Taken(items[1..], awards[1..])
  }

  // ---------- the queue ----------

  ghost function SoldSeats(q: State): set<(ScreeningId, SeatId)> {
    set rid, seat | rid in q.bookings && seat in q.bookings[rid].demand.seats ::
        (q.bookings[rid].demand.screening, seat)
  }

  lemma ConflictIsSoldSeat(q: State, demand: Demand)
    ensures HasConflict(q, demand) <==> Wants(demand) * SoldSeats(q) != {}
  {
    if HasConflict(q, demand) {
      var rid :| rid in q.bookings && Conflicts(q.bookings[rid], demand);
      var seat :| seat in q.bookings[rid].demand.seats * demand.seats;
      assert (demand.screening, seat) in Wants(demand) * SoldSeats(q);
    }
    if pair :| pair in Wants(demand) * SoldSeats(q) {
      var rid :| rid in q.bookings && pair.1 in q.bookings[rid].demand.seats
                 && q.bookings[rid].demand.screening == pair.0;
      assert pair.1 in q.bookings[rid].demand.seats * demand.seats;
      assert Conflicts(q.bookings[rid], demand);
    }
  }

  /** No claim is open and every waiting request has attempts left. */
  ghost predicate Ready(cfg: Config, q: State) {
    forall id | id in q.rows ::
      !q.rows[id].status.PROCESSING?
      && (q.rows[id].status.REQUESTED? ==> q.rows[id].transientFailures < cfg.maxTransientFailures)
  }

  /** `order` lists the waiting requests by sequence. */
  ghost predicate QueueOrder(q: State, order: seq<RequestId>) {
    && (forall id :: id in order <==> id in q.rows && q.rows[id].status.REQUESTED?)
    && forall i, j | 0 <= i < j < |order| :: q.rows[order[i]].sequence < q.rows[order[j]].sequence
  }

  /** The drain theorem is about every reachable queue that nobody is working on. */
  lemma IdleQueueIsReady(cfg: Config, s: Sys) returns (order: seq<RequestId>)
    requires ValidConfig(cfg) && Reachable(cfg, s)
    requires forall id | id in s.q.rows :: !s.q.rows[id].status.PROCESSING?
    ensures Ready(cfg, s.q) && QueueOrder(s.q, order)
  {
    ReachableInv(cfg, s);
    hide Reachable, WorkerOk, BookingOk;
    order := QueueHasOrder(s.q);
    forall id | id in s.q.rows ensures s.q.rows[id].status.REQUESTED? ==>
        s.q.rows[id].transientFailures < cfg.maxTransientFailures
    {
      assert RowOk(cfg, s, id);
    }
  }

  /** Requests with distinct sequences can be listed in queue order. */
  lemma QueueHasOrder(q: State) returns (order: seq<RequestId>)
    requires forall a, b | a in q.rows && b in q.rows && a != b :: q.rows[a].sequence != q.rows[b].sequence
    ensures QueueOrder(q, order)
  {
    order := SortBySequence(q, set id | id in q.rows && q.rows[id].status.REQUESTED?);
  }

  lemma {:induction false} SortBySequence(q: State, ids: set<RequestId>) returns (order: seq<RequestId>)
    requires ids <= q.rows.Keys
    requires forall a, b | a in ids && b in ids && a != b :: q.rows[a].sequence != q.rows[b].sequence
    ensures forall id :: id in order <==> id in ids
    ensures forall i, j | 0 <= i < j < |order| :: q.rows[order[i]].sequence < q.rows[order[j]].sequence
    decreases ids
  {
    order := [];
    if ids != {} {
      var pivot :| pivot in ids;
      var lower := SortBySequence(q, set id | id in ids && q.rows[id].sequence < q.rows[pivot].sequence);
      var higher := SortBySequence(q, set id | id in ids && q.rows[id].sequence > q.rows[pivot].sequence);
      order := lower + [pivot] + higher;
      JoinedInOrder(q, lower, pivot, higher);
      forall id ensures id in order <==> id in ids {
        assert id in ids ==> id in lower || id == pivot || id in higher;
      }
    }
  }

  lemma JoinedInOrder(q: State, lower: seq<RequestId>, pivot: RequestId, higher: seq<RequestId>)
    requires pivot in q.rows
    requires forall id | id in lower :: id in q.rows && q.rows[id].sequence < q.rows[pivot].sequence
    requires forall id | id in higher :: id in q.rows && q.rows[id].sequence > q.rows[pivot].sequence
    requires forall i, j | 0 <= i < j < |lower| :: q.rows[lower[i]].sequence < q.rows[lower[j]].sequence
    requires forall i, j | 0 <= i < j < |higher| :: q.rows[higher[i]].sequence < q.rows[higher[j]].sequence
    ensures var order := lower + [pivot] + higher;
            && (forall i | 0 <= i < |order| :: order[i] in q.rows)
            && forall i, j | 0 <= i < j < |order| :: q.rows[order[i]].sequence < q.rows[order[j]].sequence
  {
    var order := lower + [pivot] + higher;
    forall i | 0 <= i < |order|
      ensures order[i] in q.rows
      ensures i < |lower| ==> q.rows[order[i]].sequence < q.rows[pivot].sequence
      ensures i > |lower| ==> q.rows[order[i]].sequence > q.rows[pivot].sequence
    {
      assert i < |lower| ==> order[i] in lower;
      assert i > |lower| ==> order[i] in higher;
    }
  }

  ghost function Items(q: State, order: seq<RequestId>): (items: seq<Item>)
    requires forall id | id in order :: id in q.rows
    ensures |items| == |order|
  {
    seq(|order|, i requires 0 <= i < |order| => Item(order[i], q.rows[order[i]].demand))
  }

  ghost function Plan(q: State, order: seq<RequestId>, policy: RequestId -> bool): (plan: seq<Status>)
    requires forall id | id in order :: id in q.rows
    ensures |plan| == |order|
  {
    Allocate(Items(q, order), SoldSeats(q), policy)
  }

  /** The calls a plan needs: one per request, but all remaining attempts for one that fails. */
  ghost function Calls(cfg: Config, q: State, order: seq<RequestId>, plan: seq<Status>): int
    requires |order| == |plan| && forall id | id in order :: id in q.rows
  {
    if order == [] then 0
    else
      (if plan[0].FAILED? then cfg.maxTransientFailures - q.rows[order[0]].transientFailures else 1)
      + Calls(cfg, q, order[1..], plan[1..])
  }

  /** One processor call in which nothing throws but the policy. */
  ghost predicate QuietCall(cfg: Config, policy: RequestId -> bool, input: ClaimInput,
                            before: State, head: Option<RequestId>, verdict: Verdict, after: State)
  {
    && input.maxTransientFailures == cfg.maxTransientFailures && input.maxLeaseTimeouts == cfg.maxLeaseTimeouts
    && CallEffect(input, before, head, verdict, after)
    && (Gets(input, before, head) ==>
          var demand := before.rows[head.value].demand;
          if HasConflict(before, demand) then verdict.Refused?
          else if policy(head.value) then verdict.Erred? else verdict.Sold?)
  }

  /** The processor's call without faults is such a call, for a well-formed request and a fresh id. */
  lemma FaultFreeCallIsQuiet(cfg: Config, env: Surroundings, input: ClaimInput, before: State,
                             head: Option<RequestId>, verdict: Verdict, after: State, seatIds: seq<SeatId>)
    requires input.maxTransientFailures == cfg.maxTransientFailures && input.maxLeaseTimeouts == cfg.maxLeaseTimeouts
    requires CallEffect(input, before, head, verdict, after)
    requires Gets(input, before, head) ==>
               && Fulfils(verdict, FateOf(ClaimHead(before, head.value, input),
                                          TicketFor(head.value, before.rows[head.value], input), seatIds, env, {}), env)
               && seatIds != [] && NoDuplicates(seatIds)
    requires env.reservationId !in before.bookings
    ensures QuietCall(cfg, env.policy, input, before, head, verdict, after)
  {
    if Gets(input, before, head) {
      var mid := ClaimHead(before, head.value, input);
      assert HasConflict(mid, before.rows[head.value].demand) <==> HasConflict(before, before.rows[head.value].demand);
    }
  }

  // ---------- one call ----------

  /** How an attempt that leads to an award ends. */
  predicate EndsAs(outcome: Outcome, award: Status) {
    match award
    case CONFIRMED => outcome.Confirmed?
    case REJECTED => outcome.Rejected?
    case FAILED => outcome.UnexpectedError?
    case _ => false
  }

  /** `after` is `before` and `count` more attempts of that kind. */
  ghost predicate LogGrows(before: seq<Attempt>, after: seq<Attempt>, award: Status, count: int) {
    && |after| == |before| + count && before <= after
    && forall k | |before| <= k < |after| :: EndsAs(after[k].outcome, award)
  }

  /** One row's log grows by one attempt, the others keep theirs. */
  ghost predicate OneAttemptMore(q: State, q': State, id: RequestId, award: Status) {
    && LogGrows(LogOf(q.log, id), LogOf(q'.log, id), award, 1)
    && forall other | other != id :: LogOf(q'.log, other) == LogOf(q.log, other)
  }

  lemma HeadIsFirst(cfg: Config, q: State, order: seq<RequestId>, input: ClaimInput, id: RequestId)
    requires Ready(cfg, q) && QueueOrder(q, order) && IsHead(q, id, input, {})
    requires input.maxTransientFailures == cfg.maxTransientFailures
    ensures order != [] && id == order[0]
  {
    assert id in order;
    var i :| 0 <= i < |order| && order[i] == id;
    assert order[0] in order;
  }

  /** What closing the first request with `row` leaves. */
  lemma FirstLeaves(cfg: Config, q: State, q': State, order: seq<RequestId>)
    requires Ready(cfg, q) && QueueOrder(q, order) && order != []
    requires order[0] in q'.rows && q'.rows == q.rows[order[0] := q'.rows[order[0]]]
    requires Terminal(q'.rows[order[0]].status)
    ensures Ready(cfg, q') && QueueOrder(q', order[1..])
    ensures forall id | id in order[1..] :: id in q.rows && q'.rows[id] == q.rows[id]
  {
    forall id ensures id in order[1..] <==> id in q'.rows && q'.rows[id].status.REQUESTED? {
      if id in order && id != order[0] {
        var i :| 0 <= i < |order| && order[i] == id;
        assert order[1..][i - 1] == id;
      }
      if id in order[1..] {
        var i :| 0 <= i < |order[1..]| && order[1..][i] == id;
        assert order[i + 1] == id;
      }
    }
  }

  lemma {:induction false} CallsFrame(cfg: Config, q: State, q': State, order: seq<RequestId>, plan: seq<Status>)
    requires |order| == |plan|
    requires forall id | id in order :: id in q.rows && id in q'.rows && q'.rows[id] == q.rows[id]
    ensures Calls(cfg, q', order, plan) == Calls(cfg, q, order, plan)
  {
    if order != [] {
      CallsFrame(cfg, q, q', order[1..], plan[1..]);
    }
  }

  /** A call on a queue with waiting requests touches the first one only, and does with it what the
      allocation awards: a failing request is released until its last attempt. */
  lemma CallFollowsAward(cfg: Config, policy: RequestId -> bool, input: ClaimInput, q: State, order: seq<RequestId>,
                         head: Option<RequestId>, verdict: Verdict, q': State)
    requires Ready(cfg, q) && QueueOrder(q, order) && order != []
    requires QuietCall(cfg, policy, input, q, head, verdict, q')
    ensures order[0] in q.rows && q.rows[order[0]].status.REQUESTED?
    ensures order[0] in q'.rows && q'.rows == q.rows[order[0] := q'.rows[order[0]]]
    ensures var row, row' := q.rows[order[0]], q'.rows[order[0]];
            var award := Award(Item(order[0], row.demand), SoldSeats(q), policy);
            && row'.demand == row.demand && row'.sequence == row.sequence && row'.leaseTimeouts == row.leaseTimeouts
            && OneAttemptMore(q, q', order[0], award)
            && row'.status == (if award.FAILED? && row.transientFailures + 1 < cfg.maxTransientFailures
                               then REQUESTED else award)
            && row'.transientFailures == row.transientFailures + (if award.FAILED? then 1 else 0)
            && SoldSeats(q') == SoldSeats(q) + if award.CONFIRMED? then Wants(row.demand) else {}
  {
    var first := order[0];
    assert first in order;
    assert Eligible(q.rows[first], input);
    HeadIsFirst(cfg, q, order, input, head.value);
    ConflictIsSoldSeat(q, q.rows[first].demand);
    hide HasConflict, IsHead, NothingEligible, QueueOrder, Ready, SoldSeats, Wants;
    SoldAfter(q, verdict, q', q.rows[first].demand);
  }

  lemma SoldAfter(q: State, verdict: Verdict, q': State, demand: Demand)
    requires verdict.Sold? ==> verdict.rid !in q.bookings && q'.bookings.Keys == q.bookings.Keys + {verdict.rid}
                               && q'.bookings[verdict.rid].demand == demand
                               && forall rid | rid in q.bookings :: q'.bookings[rid] == q.bookings[rid]
    requires !verdict.Sold? ==> q'.bookings == q.bookings
    ensures SoldSeats(q') == SoldSeats(q) + if verdict.Sold? then Wants(demand) else {}
  {
    if verdict.Sold? {
      forall pair ensures pair in SoldSeats(q') <==> pair in SoldSeats(q) + Wants(demand) {
        if pair in SoldSeats(q) {
          var rid :| rid in q.bookings && pair.1 in q.bookings[rid].demand.seats
                     && q.bookings[rid].demand.screening == pair.0;
          assert rid in q'.bookings && q'.bookings[rid] == q.bookings[rid];
        }
        if pair in Wants(demand) {
          assert verdict.rid in q'.bookings;
        }
      }
    }
  }

  /** The first request keeps its place and has one attempt less. */
  lemma RetryKeepsPlan(cfg: Config, policy: RequestId -> bool, q: State, order: seq<RequestId>, q': State)
    requires Ready(cfg, q) && QueueOrder(q, order) && order != [] && order[0] in q.rows && order[0] in q'.rows
    requires q'.rows == q.rows[order[0] := q'.rows[order[0]]] && SoldSeats(q') == SoldSeats(q)
    requires var row, row' := q.rows[order[0]], q'.rows[order[0]];
             && row'.demand == row.demand && row'.sequence == row.sequence && row'.status.REQUESTED?
             && row'.transientFailures == row.transientFailures + 1 < cfg.maxTransientFailures
             && Award(Item(order[0], row.demand), SoldSeats(q), policy).FAILED?
    ensures Ready(cfg, q') && QueueOrder(q', order)
    ensures Items(q', order) == Items(q, order) && Plan(q', order, policy) == Plan(q, order, policy)
    ensures Calls(cfg, q', order, Plan(q', order, policy)) == Calls(cfg, q, order, Plan(q, order, policy)) - 1
  {
    var plan := Plan(q, order, policy);
    assert Items(q', order) == Items(q, order);
    assert Items(q, order)[0] == Item(order[0], q.rows[order[0]].demand);
    OthersDiffer(q, order);
    CallsFrame(cfg, q, q', order[1..], plan[1..]);
  }

  lemma OthersDiffer(q: State, order: seq<RequestId>)
    requires QueueOrder(q, order) && order != []
    ensures order[0] !in order[1..]
  {
    forall i | 0 <= i < |order[1..]| ensures order[1..][i] != order[0] {
      assert order[i + 1] in order && order[0] in order;
      assert q.rows[order[0]].sequence < q.rows[order[i + 1]].sequence;
    }
  }

  /** The first request is closed as awarded and the plan for the rest is unchanged. */
  lemma CloseAdvancesPlan(cfg: Config, policy: RequestId -> bool, q: State, order: seq<RequestId>, q': State)
    requires Ready(cfg, q) && QueueOrder(q, order) && order != [] && order[0] in q.rows && order[0] in q'.rows
    requires q'.rows == q.rows[order[0] := q'.rows[order[0]]]
    requires var row, row' := q.rows[order[0]], q'.rows[order[0]];
             var award := Award(Item(order[0], row.demand), SoldSeats(q), policy);
             && row'.status == award
             && (award.FAILED? ==> row.transientFailures + 1 == cfg.maxTransientFailures)
             && SoldSeats(q') == SoldSeats(q) + if award.CONFIRMED? then Wants(row.demand) else {}
    ensures Ready(cfg, q') && QueueOrder(q', order[1..])
    ensures Items(q, order) == [Item(order[0], q.rows[order[0]].demand)] + Items(q', order[1..])
    ensures Plan(q, order, policy) == [q'.rows[order[0]].status] + Plan(q', order[1..], policy)
    ensures Calls(cfg, q', order[1..], Plan(q', order[1..], policy)) == Calls(cfg, q, order, Plan(q, order, policy)) - 1
  {
    FirstLeaves(cfg, q, q', order);
    assert Items(q, order)[0] == Item(order[0], q.rows[order[0]].demand);
    assert Items(q, order)[1..] == Items(q', order[1..]);
    if !q'.rows[order[0]].status.CONFIRMED? {
      assert SoldSeats(q') == SoldSeats(q);
    }
    assert Plan(q, order, policy)[1..] == Plan(q', order[1..], policy);
    CallsFrame(cfg, q, q', order[1..], Plan(q', order[1..], policy));
  }

  // ---------- the whole drain ----------

  /** One call of a drain: what it was given and what it did. */
  datatype Made = Made(input: ClaimInput, head: Option<RequestId>, verdict: Verdict)

  ghost predicate Drains(cfg: Config, policy: RequestId -> bool, trace: seq<State>, calls: seq<Made>) {
    && |trace| == |calls| + 1
    && forall i | 0 <= i < |calls| ::
         QuietCall(cfg, policy, calls[i].input, trace[i], calls[i].head, calls[i].verdict, trace[i + 1])
  }

  lemma EmptyQueueIsIdle(cfg: Config, q: State, input: ClaimInput)
    requires Ready(cfg, q) && QueueOrder(q, [])
    ensures NothingEligible(q, input, {})
  {
    forall id | id in q.rows ensures !Eligible(q.rows[id], input) {
      assert id !in [];
    }
  }

  lemma {:induction false} CallsPositive(cfg: Config, q: State, order: seq<RequestId>, plan: seq<Status>)
    requires |order| == |plan| && forall id | id in order :: id in q.rows
    requires forall id | id in order :: q.rows[id].transientFailures < cfg.maxTransientFailures
    ensures Calls(cfg, q, order, plan) >= |order|
  {
    if order != [] {
      CallsPositive(cfg, q, order[1..], plan[1..]);
    }
  }

  /** A waiting request has ended as awarded: FAILED after exactly its remaining attempts, the others
      after one attempt more, and nothing else about it has changed. */
  ghost predicate EndedAs(cfg: Config, first: State, last: State, id: RequestId, award: Status)
    requires id in first.rows
  {
    && id in last.rows
    && last.rows[id].demand == first.rows[id].demand && last.rows[id].sequence == first.rows[id].sequence
    && last.rows[id].leaseTimeouts == first.rows[id].leaseTimeouts
    && last.rows[id].status == award
    && last.rows[id].transientFailures == (if award.FAILED? then cfg.maxTransientFailures
                                           else first.rows[id].transientFailures)
    && LogGrows(LogOf(first.log, id), LogOf(last.log, id), award,
                if award.FAILED? then cfg.maxTransientFailures - first.rows[id].transientFailures else 1)
  }

  /** Every waiting request has ended as the plan awards, the seats sold are those the plan takes,
      and no other request has changed. */
  ghost predicate DrainedAs(cfg: Config, first: State, last: State, order: seq<RequestId>, plan: seq<Status>)
    requires |order| == |plan| && forall id | id in order :: id in first.rows
  {
    && (forall i | 0 <= i < |order| :: EndedAs(cfg, first, last, order[i], plan[i]))
    && (forall id | id in first.rows && id !in order ::
          id in last.rows && last.rows[id] == first.rows[id] && LogOf(last.log, id) == LogOf(first.log, id))
    && SoldSeats(last) == SoldSeats(first) + Taken(Items(first, order), plan)
  }

  lemma RetriedDrain(cfg: Config, first: State, next: State, last: State, order: seq<RequestId>, plan: seq<Status>)
    requires |order| == |plan| && order != [] && forall id | id in order :: id in first.rows && id in next.rows
    requires order[0] in next.rows && next.rows == first.rows[order[0] := next.rows[order[0]]]
    requires order[0] !in order[1..] && plan[0].FAILED? && OneAttemptMore(first, next, order[0], FAILED)
    requires var row, row' := first.rows[order[0]], next.rows[order[0]];
             && row'.demand == row.demand && row'.sequence == row.sequence && row'.leaseTimeouts == row.leaseTimeouts
             && row'.transientFailures == row.transientFailures + 1
    requires SoldSeats(next) == SoldSeats(first) && Items(next, order) == Items(first, order)
    requires DrainedAs(cfg, next, last, order, plan)
    ensures DrainedAs(cfg, first, last, order, plan)
  {
    hide SoldSeats, Taken, Items, LogOf;
    forall i | 0 <= i < |order| ensures EndedAs(cfg, first, last, order[i], plan[i]) {
      assert EndedAs(cfg, next, last, order[i], plan[i]);
      if i > 0 { assert order[i] == order[1..][i - 1]; }
    }
    assert order[0] in order;
  }

  lemma ClosedDrain(cfg: Config, first: State, next: State, last: State, order: seq<RequestId>, plan: seq<Status>)
    requires |order| == |plan| && order != [] && forall id | id in order :: id in first.rows && id in next.rows
    requires next.rows == first.rows[order[0] := next.rows[order[0]]] && order[0] !in order[1..]
    requires plan[0] == next.rows[order[0]].status && OneAttemptMore(first, next, order[0], plan[0])
    requires var row, row' := first.rows[order[0]], next.rows[order[0]];
             && row'.demand == row.demand && row'.sequence == row.sequence && row'.leaseTimeouts == row.leaseTimeouts
             && row'.transientFailures == row.transientFailures + (if plan[0].FAILED? then 1 else 0)
             && (plan[0].FAILED? ==> row'.transientFailures == cfg.maxTransientFailures)
    requires SoldSeats(next) == SoldSeats(first) + if plan[0].CONFIRMED? then Wants(first.rows[order[0]].demand) else {}
    requires Items(first, order) == [Item(order[0], first.rows[order[0]].demand)] + Items(next, order[1..])
    requires DrainedAs(cfg, next, last, order[1..], plan[1..])
    ensures DrainedAs(cfg, first, last, order, plan)
  {
    hide SoldSeats, Wants;
    assert last.rows[order[0]] == next.rows[order[0]];
    assert Items(first, order)[1..] == Items(next, order[1..]);
    hide Taken, Items, LogOf;
    forall i | 0 <= i < |order| ensures EndedAs(cfg, first, last, order[i], plan[i]) {
      if i > 0 {
        assert order[i] == order[1..][i - 1] && plan[i] == plan[1..][i - 1];
        assert EndedAs(cfg, next, last, order[i], plan[i]);
      }
    }
    forall id | id in first.rows && id !in order
      ensures id in last.rows && last.rows[id] == first.rows[id] && LogOf(last.log, id) == LogOf(first.log, id)
    {
      assert id !in order[1..];
    }
  }

  /** Who is still waiting after a call on the first request. */
  ghost function Waiting(order: seq<RequestId>, q': State): seq<RequestId>
    requires order != []
  {
    if order[0] in q'.rows && q'.rows[order[0]].status.REQUESTED? then order else order[1..]
  }

  /** One call brings the plan one call nearer to its end. */
  lemma CallServesPlan(cfg: Config, policy: RequestId -> bool, made: Made, q: State, order: seq<RequestId>, q': State)
    requires Ready(cfg, q) && QueueOrder(q, order) && order != []
    requires QuietCall(cfg, policy, made.input, q, made.head, made.verdict, q')
    ensures var left := Waiting(order, q');
            && Ready(cfg, q') && QueueOrder(q', left)
            && Calls(cfg, q', left, Plan(q', left, policy)) == Calls(cfg, q, order, Plan(q, order, policy)) - 1
            && forall last :: DrainedAs(cfg, q', last, left, Plan(q', left, policy)) ==>
                                DrainedAs(cfg, q, last, order, Plan(q, order, policy))
  {
    var plan := Plan(q, order, policy);
    CallFollowsAward(cfg, policy, made.input, q, order, made.head, made.verdict, q');
    AwardHeadsPlan(q, order, policy);
    OthersDiffer(q, order);
    hide Plan, SoldSeats, Wants, QuietCall, Award, DrainedAs, Items, Calls;
    if q'.rows[order[0]].status.REQUESTED? {
      RetryKeepsPlan(cfg, policy, q, order, q');
      forall last | DrainedAs(cfg, q', last, order, plan) ensures DrainedAs(cfg, q, last, order, plan) {
        RetriedDrain(cfg, q, q', last, order, plan);
      }
    } else {
      CloseAdvancesPlan(cfg, policy, q, order, q');
      forall last | DrainedAs(cfg, q', last, order[1..], plan[1..]) ensures DrainedAs(cfg, q, last, order, plan) {
        ClosedDrain(cfg, q, q', last, order, plan);
      }
    }
  }

  lemma DrainsTail(cfg: Config, policy: RequestId -> bool, trace: seq<State>, calls: seq<Made>)
    requires Drains(cfg, policy, trace, calls) && calls != []
    ensures Drains(cfg, policy, trace[1..], calls[1..])
    ensures QuietCall(cfg, policy, calls[0].input, trace[0], calls[0].head, calls[0].verdict, trace[1])
  {
    hide QuietCall;
  }

  lemma CallsNeeded(cfg: Config, policy: RequestId -> bool, q: State, order: seq<RequestId>)
    requires Ready(cfg, q) && QueueOrder(q, order)
    ensures Calls(cfg, q, order, Plan(q, order, policy)) >= |order|
  {
    CallsPositive(cfg, q, order, Plan(q, order, policy));
  }

  /** Draining is greedy allocation: after exactly the planned number of calls the queue is drained
      as planned, and no later call finds work. */
  lemma {:induction false} DrainIsGreedy(
      cfg: Config, policy: RequestId -> bool, trace: seq<State>, calls: seq<Made>, order: seq<RequestId>)
    requires Drains(cfg, policy, trace, calls)
    requires Ready(cfg, trace[0]) && QueueOrder(trace[0], order)
    requires |calls| == Calls(cfg, trace[0], order, Plan(trace[0], order, policy))
    ensures DrainedAs(cfg, trace[0], trace[|calls|], order, Plan(trace[0], order, policy))
    ensures forall input :: NothingEligible(trace[|calls|], input, {})
    decreases |calls|
  {
    CallsNeeded(cfg, policy, trace[0], order);
    if order == [] {
      forall input ensures NothingEligible(trace[0], input, {}) { EmptyQueueIsIdle(cfg, trace[0], input); }
    } else {
      hide Ready, Plan, Calls, DrainedAs, NothingEligible, QuietCall, Waiting;
      DrainsTail(cfg, policy, trace, calls);
      CallServesPlan(cfg, policy, calls[0], trace[0], order, trace[1]);
      hide Drains;
      DrainIsGreedy(cfg, policy, trace[1..], calls[1..], Waiting(order, trace[1]));
    }
  }

  lemma AwardHeadsPlan(q: State, order: seq<RequestId>, policy: RequestId -> bool)
    requires order != [] && forall id | id in order :: id in q.rows
    ensures Plan(q, order, policy)[0] == Award(Item(order[0], q.rows[order[0]].demand), SoldSeats(q), policy)
  {
    assert Items(q, order)[0] == Item(order[0], q.rows[order[0]].demand);
  }

  function CountFailed(plan: seq<Status>): nat {
    if plan == [] then 0 else (if plan[0].FAILED? then 1 else 0) + CountFailed(plan[1..])
  }

  /** For fresh requests the number of calls is confirmed + rejected + T times failed. */
  lemma {:induction false} CallsOfFreshQueue(cfg: Config, q: State, order: seq<RequestId>, plan: seq<Status>)
    requires |order| == |plan| && forall id | id in order :: id in q.rows && q.rows[id].transientFailures == 0
    ensures Calls(cfg, q, order, plan) == (|plan| - CountFailed(plan)) + cfg.maxTransientFailures * CountFailed(plan)
  {
    if order != [] {
      CallsOfFreshQueue(cfg, q, order[1..], plan[1..]);
    }
  }
}
