/** The polling worker: its timers and its one item in flight, event by event. */
module WorkerService {
  import opened Domain
  import opened Queue
  import opened InMemoryStore
  import opened InMemoryWorkRepository

  datatype Event =
    | Bootstrap
    | PollFires
    | ItemClaimed(token: ClaimToken)              // the processor reports the item it claimed
    | Ends                                    // processing settled, normally or not
    | Tick                                    // the heartbeat interval elapsed
    | Reply(token: ClaimToken, renewed: bool) // a heartbeat sent for `token` was answered
    | Shutdown

  datatype WorkerState = WorkerState(
    pollTimer: bool, heartbeatTimer: bool, stopping: bool, inFlight: bool, item: Option<ClaimToken>)

  const IDLE := WorkerState(false, false, false, false, None)

  /** Which events can occur; replies may arrive at any time. */
  predicate Possible(w: WorkerState, e: Event) {
    match e
    case Bootstrap => !w.pollTimer && !w.inFlight
    case PollFires => w.pollTimer
    case ItemClaimed(_) => w.inFlight && w.item.None?
    case Ends => w.inFlight
    case Tick => w.heartbeatTimer
    case Reply(_, _) => true
    case Shutdown => true
  }

  function Next(w: WorkerState, e: Event): WorkerState {
    match e
    case Bootstrap => w.(pollTimer := w.pollTimer || !w.stopping)
    case PollFires => w.(pollTimer := false, inFlight := true, heartbeatTimer := true, item := None)
    case ItemClaimed(token) => w.(item := Some(token))
    case Ends => w.(inFlight := false, heartbeatTimer := false, item := None, pollTimer := !w.stopping)
    case Tick => w
    case Reply(_, renewed) => if renewed then w else w.(heartbeatTimer := false)
    case Shutdown => w.(stopping := true, pollTimer := false, heartbeatTimer := false)
  }

  class FakeReservationRequestWorkerService {
    const claimLeaseMs: int
    var pollTimer: bool
    var heartbeatTimer: bool
    var stopping: bool
    var inFlight: bool
    var claimedWorkItem: Option<ClaimToken>

    ghost function View(): WorkerState
      reads this
    {
      WorkerState(pollTimer, heartbeatTimer, stopping, inFlight, claimedWorkItem)
    }

    constructor (claimLeaseMs: int)
      ensures View() == IDLE && this.claimLeaseMs == claimLeaseMs
    {
      this.claimLeaseMs := claimLeaseMs;
      pollTimer, heartbeatTimer, stopping, inFlight, claimedWorkItem := false, false, false, false, None;
    }

    method OnApplicationBootstrap()
      modifies this
      ensures View() == Next(old(View()), Bootstrap)
      ensures !stopping ==> pollTimer
    {
      ScheduleNextPoll();
    }

    method ScheduleNextPoll()
      modifies this`pollTimer
      ensures pollTimer == (old(pollTimer) || !stopping)
    {
      if stopping {
        return;
      }
      pollTimer := true;
    }

    /** The poll timer fires: one pass starts, with its own heartbeat interval. */
    method StartProcessingOneWorkItem()
      requires Possible(View(), PollFires)
      modifies this
      ensures View() == Next(old(View()), PollFires)
      ensures inFlight && heartbeatTimer && claimedWorkItem.None? && !pollTimer
    {
      pollTimer, inFlight := false, true;
      claimedWorkItem := None;
      heartbeatTimer := true;
    }

    method OnClaimed(token: ClaimToken)
      requires Possible(View(), ItemClaimed(token))
      modifies this
      ensures View() == Next(old(View()), ItemClaimed(token))
      ensures claimedWorkItem == Some(token)
    {
      claimedWorkItem := Some(token);
    }

    /** The pass is over: its timer is cleared and the next poll scheduled. */
    method FinishProcessingOneWorkItem()
      requires Possible(View(), Ends) && !pollTimer
      modifies this
      ensures View() == Next(old(View()), Ends)
      ensures !inFlight && !heartbeatTimer && claimedWorkItem.None? && pollTimer == !stopping
    {
      ClearHeartbeatTimer();
      claimedWorkItem := None;
      inFlight := false;
      ScheduleNextPoll();
    }

    /** A heartbeat goes out only for a claimed item. */
    method OnHeartbeatInterval() returns (sent: Option<ClaimToken>)
      requires Possible(View(), Tick)
      ensures sent == claimedWorkItem
    {
      sent := claimedWorkItem;
    }

    /** One heartbeat: asks for a full lease from now on, for the item's own claim. */
    method Heartbeat(repository: WorkRepository, item: ClaimedReservationRequest, now: int) returns (renewed: bool)
      requires repository.store.Valid()
      modifies repository.store
      ensures repository.store.Valid()
      ensures renewed <==> Holds(old(repository.store.View()), TicketOf(item))
      ensures !renewed ==> unchanged(repository.store)
      ensures renewed ==>
                var id, metadata := item.reservationRequest.id, old(repository.store.metadataById);
                && id in metadata && metadata[id].claim.Some?
                && repository.store.metadataById == metadata[id := metadata[id].(claim := Some(Claim(
                     item.claimedBy, item.claimToken, metadata[id].claim.value.claimedAt, now + claimLeaseMs, now)))]
    {
      renewed := repository.HeartbeatClaimedReservationRequest(item, now, now + claimLeaseMs);
    }

    /** An answer that the lease was not renewed clears the current timer, whoever it was about. */
    method OnHeartbeatReply(token: ClaimToken, renewed: bool)
      modifies this
      ensures View() == Next(old(View()), Reply(token, renewed))
    {
      if !renewed {
        ClearHeartbeatTimer();
      }
    }

    method OnApplicationShutdown()
      modifies this
      ensures View() == Next(old(View()), Shutdown)
    {
      stopping := true;
      pollTimer := false;
      ClearHeartbeatTimer();
    }

    method ClearHeartbeatTimer()
      modifies this`heartbeatTimer
      ensures !heartbeatTimer
    {
      heartbeatTimer := false;
    }
  }

  // ---------- runs ----------

  ghost predicate EventRun(states: seq<WorkerState>, events: seq<Event>) {
    && |states| == |events| + 1 && states[0] == IDLE
    && forall i | 0 <= i < |events| :: Possible(states[i], events[i]) && states[i + 1] == Next(states[i], events[i])
  }

  /** Polls are sequential: no poll is armed while an item is in flight, the heartbeat timer runs
      only for an item in flight, and neither timer is armed once stopping. */
  lemma {:induction false} PollsAreSequential(states: seq<WorkerState>, events: seq<Event>, i: nat)
    requires EventRun(states, events) && i < |states|
    ensures !(states[i].pollTimer && states[i].inFlight)
    ensures states[i].heartbeatTimer ==> states[i].inFlight
    ensures states[i].item.Some? ==> states[i].inFlight
    ensures states[i].stopping ==> !states[i].pollTimer && !states[i].heartbeatTimer
  {
    if i > 0 {
      PollsAreSequential(states, events, i - 1);
    }
  }

  /** After shutdown no pass starts, however the events continue. */
  lemma {:induction false} NothingStartsAfterShutdown(states: seq<WorkerState>, events: seq<Event>, i: nat, j: nat)
    requires EventRun(states, events) && i < j < |events| && events[i].Shutdown?
    ensures states[j].stopping && !events[j].PollFires?
    decreases j
  {
    if j > i + 1 {
      NothingStartsAfterShutdown(states, events, i, j - 1);
    }
    PollsAreSequential(states, events, j);
  }

  lemma {:induction false} NotStopping(states: seq<WorkerState>, events: seq<Event>, j: nat)
    requires EventRun(states, events) && j < |states| && forall k | 0 <= k < j :: !events[k].Shutdown?
    ensures !states[j].stopping
  {
    if j > 0 {
      NotStopping(states, events, j - 1);
    }
  }

  /** The worker never goes quiet: once started, and until it is shut down, a poll is armed or a pass
      is in flight. */
  lemma {:induction false} AlwaysPollsAgain(states: seq<WorkerState>, events: seq<Event>, i: nat, j: nat)
    requires EventRun(states, events) && i < j < |states| && events[i].Bootstrap?
    requires forall k | 0 <= k < j :: !events[k].Shutdown?
    ensures states[j].pollTimer || states[j].inFlight
    decreases j
  {
    NotStopping(states, events, j - 1);
    if j > i + 1 {
      AlwaysPollsAgain(states, events, i, j - 1);
    }
  }

  /** Started, or at the end of any pass, the next poll can fire, unless the worker was shut down; and
      a pass that has begun can end. Shutdown and late replies can come at any time. */
  lemma PollFollows(states: seq<WorkerState>, events: seq<Event>, i: nat)
    requires EventRun(states, events) && i < |events|
    ensures (events[i].Bootstrap? || events[i].Ends?) && (forall k | 0 <= k <= i :: !events[k].Shutdown?) ==>
              states[i + 1].pollTimer && Possible(states[i + 1], PollFires)
    ensures events[i].PollFires? ==>
              && states[i + 1].inFlight && states[i + 1].heartbeatTimer && states[i + 1].item.None?
              && Possible(states[i + 1], Ends) && Possible(states[i + 1], Tick)
              && forall token :: Possible(states[i + 1], ItemClaimed(token))
    ensures Possible(states[i], Shutdown) && forall token, renewed :: Possible(states[i], Reply(token, renewed))
  {
    if forall k | 0 <= k <= i :: !events[k].Shutdown? { NotStopping(states, events, i); }
  }

  /** The item in flight is the one the pass has claimed, if it has claimed one. */
  lemma {:induction false} ItemIsTheOneClaimed(states: seq<WorkerState>, events: seq<Event>, i: nat, j: nat,
                                               token: ClaimToken)
    requires EventRun(states, events) && SamePass(states, events, i, j)
    ensures states[j].inFlight
    ensures states[j].item == Some(token) <==> exists k | i < k < j :: events[k] == ItemClaimed(token)
    ensures states[j].item.None? <==> forall k | i < k < j :: !events[k].ItemClaimed?
    decreases j
  {
    if j > i + 1 {
      ItemIsTheOneClaimed(states, events, i, j - 1, token);
      PollsAreSequential(states, events, j - 1);
    }
  }

  /** The pass that began at event `i` is still in flight before event `j`. */
  ghost predicate SamePass(states: seq<WorkerState>, events: seq<Event>, i: nat, j: nat) {
    && i < j < |states| && j <= |events| && events[i].PollFires?
    && forall k | i < k < j :: !events[k].Ends?
  }

  predicate Disarms(e: Event) {
    e.Shutdown? || (e.Reply? && !e.renewed)
  }

  /** The item in flight keeps its heartbeat timer exactly as long as no shutdown and no refusal,
      of any heartbeat, has arrived since its pass began. */
  lemma {:induction false} TimerRunsIff(states: seq<WorkerState>, events: seq<Event>, i: nat, j: nat)
    requires EventRun(states, events) && SamePass(states, events, i, j)
    ensures states[j].inFlight
    ensures states[j].heartbeatTimer <==> forall k | i < k < j :: !Disarms(events[k])
    decreases j
  {
    if j > i + 1 {
      TimerRunsIff(states, events, i, j - 1);
      PollsAreSequential(states, events, j - 1);
    }
  }

  /** The refusal may be about an earlier item: a late answer stops the heartbeats of the next one,
      whose claim nobody has taken. */
  lemma LateReplyStopsNextItem(first: ClaimToken, second: ClaimToken)
    returns (states: seq<WorkerState>, events: seq<Event>)
    requires first != second
    ensures EventRun(states, events) && events != []
    ensures events[|events| - 1] == Reply(first, false)
    ensures states[|events| - 1].item == Some(second) && states[|events| - 1].heartbeatTimer
    ensures states[|events|].inFlight && states[|events|].item == Some(second) && !states[|events|].heartbeatTimer
  {
    events := [Bootstrap, PollFires, ItemClaimed(first), Tick, Ends, PollFires, ItemClaimed(second),
               Reply(first, false)];
    var s1 := Next(IDLE, events[0]);
    var s2 := Next(s1, events[1]);
    var s3 := Next(s2, events[2]);
    var s4 := Next(s3, events[3]);
    var s5 := Next(s4, events[4]);
    var s6 := Next(s5, events[5]);
    var s7 := Next(s6, events[6]);
    states := [IDLE, s1, s2, s3, s4, s5, s6, s7, Next(s7, events[7])];
  }
}
