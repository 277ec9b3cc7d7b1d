/** The processor's claims and the worker's heartbeats are the timed actions the lease theorems are about. */
module Timing {
  import opened Domain
  import opened Queue
  import opened Protocol
  import opened Safety
  import opened InMemoryWorkRepository
  import opened Processor
  import opened WorkerService
  import opened Leases

  /** A worker process: its processor and its polling service, set up with the same lease. */
  datatype Deployed = Deployed(processor: ReservationRequestProcessor, service: FakeReservationRequestWorkerService)

  /** The action is one of the deployed workers' doing, at that reading of the clock: claims come from
      their processors, heartbeats from their services, everything else is free. */
  ghost predicate MadeBy(workers: set<Deployed>, a: Action, time: int) {
    && (a.ClaimNext? ==>
          exists w, env: Surroundings | w in workers ::
            env.startedAt == time && a.input == w.processor.ClaimInputFor(env))
    && (a.Beat? ==> exists w | w in workers :: a.at == time && a.expiresAt == time + w.service.claimLeaseMs)
  }

  ghost predicate SameLease(workers: set<Deployed>, leaseMs: int) {
    forall w | w in workers :: w.processor.options.claimLeaseMs == leaseMs && w.service.claimLeaseMs == leaseMs
  }

  /** A claim made by the class leases from the moment its clock was read. */
  lemma ClaimIsTimed(processor: ReservationRequestProcessor, env: Surroundings, head: Option<RequestId>)
    ensures LeasesFor(ClaimNext(processor.ClaimInputFor(env), {}, head), env.startedAt, processor.options.claimLeaseMs)
    ensures var input := processor.ClaimInputFor(env);
            && input.workerId == processor.options.workerId && input.claimToken == env.claimToken
            && input.claimedAt == env.startedAt
            && input.claimExpiresAt == env.startedAt + processor.options.claimLeaseMs
            && input.maxLeaseTimeouts == processor.options.maxLeaseTimeouts
            && input.maxTransientFailures == processor.options.maxTransientFailures
  {
  }

  /** Runs of deployed workers on one clock that does not go back are timed runs. */
  lemma WorkersRunTimed(cfg: Config, workers: set<Deployed>, leaseMs: int, trace: seq<Sys>, acts: seq<Action>,
                        times: seq<int>)
    requires Run(cfg, trace, acts) && |times| == |acts| && SameLease(workers, leaseMs)
    requires forall i, j | 0 <= i < j < |times| :: times[i] <= times[j]
    requires forall i | 0 <= i < |acts| :: MadeBy(workers, acts[i], times[i])
    ensures TimedRun(cfg, leaseMs, trace, acts, times)
  {
    hide Run;
    forall i | 0 <= i < |acts| ensures LeasesFor(acts[i], times[i], leaseMs) {
      assert MadeBy(workers, acts[i], times[i]);
      if acts[i].ClaimNext? {
        var w, env: Surroundings :| w in workers && env.startedAt == times[i]
            && acts[i].input == w.processor.ClaimInputFor(env);
        ClaimIsTimed(w.processor, env, acts[i].head);
      }
    }
  }

  /** So a deployed worker that renews often enough is never claimed away from, by any of them. */
  lemma PunctualWorkerKeepsItsItem(
      cfg: Config, workers: set<Deployed>, leaseMs: int, trace: seq<Sys>, acts: seq<Action>, times: seq<int>,
      c: nat, token: ClaimToken, n: nat, gapMs: int)
    requires ValidConfig(cfg) && Run(cfg, trace, acts) && |times| == |acts| && SameLease(workers, leaseMs)
    requires forall i, j | 0 <= i < j < |times| :: times[i] <= times[j]
    requires forall i | 0 <= i < |acts| :: MadeBy(workers, acts[i], times[i])
    requires gapMs < leaseMs && Issues(trace, acts, c, token) && c < n <= |acts|
    requires Punctual(acts, times, c, n, token, gapMs) && forall k | c < k < n :: !Closes(acts[k], token)
    ensures token in trace[n].workers && Holds(trace[n].q, trace[n].workers[token].ticket)
    ensures forall i | c < i < n && acts[i].ClaimNext? :: acts[i].head != Some(trace[c + 1].workers[token].ticket.id)
  {
    hide Run, MadeBy, SameLease, Punctual, Closes;
    WorkersRunTimed(cfg, workers, leaseMs, trace, acts, times);
    PunctualHolds(cfg, leaseMs, trace, acts, times, c, token, n, gapMs);
    forall i: int | c < i < n && acts[i].ClaimNext?
      ensures acts[i].head != Some(trace[c + 1].workers[token].ticket.id)
    {
      PunctualWorkerIsLeftAlone(cfg, leaseMs, trace, acts, times, c, token, n, gapMs, i);
    }
  }
}
