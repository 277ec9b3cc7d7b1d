/** Timing: a worker that renews often enough never loses its claim to anyone. */
module Leases {
  import opened Domain
  import opened Queue
  import opened Protocol
  import opened ProtocolInvariant
  import opened Safety

  /** A run on one clock that does not go back: claims and heartbeats read it and lease for `leaseMs`. */
  ghost predicate TimedRun(cfg: Config, leaseMs: int, trace: seq<Sys>, acts: seq<Action>, times: seq<int>) {
    && Run(cfg, trace, acts) && |times| == |acts|
    && (forall i, j | 0 <= i < j < |times| :: times[i] <= times[j])
    && forall i | 0 <= i < |acts| :: LeasesFor(acts[i], times[i], leaseMs)
  }

  /** A claim or heartbeat made at `time` asks for a full lease from then on. */
  ghost predicate LeasesFor(a: Action, time: int, leaseMs: int) {
    && (a.ClaimNext? ==> a.input.claimedAt == time && a.input.claimExpiresAt == time + leaseMs)
    && (a.Beat? ==> a.at == time && a.expiresAt == time + leaseMs)
  }

  /** Action `c` is the claim that issued `token`. */
  ghost predicate Issues(trace: seq<Sys>, acts: seq<Action>, c: nat, token: ClaimToken) {
    && c < |acts| && c + 1 < |trace|
    && acts[c].ClaimNext? && acts[c].input.claimToken == token && token in trace[c + 1].workers
  }

  /** Action `m` starts or renews the lease of `token`, which was issued at `c`. */
  ghost predicate Renews(acts: seq<Action>, c: nat, token: ClaimToken, m: int) {
    0 <= m < |acts| && (m == c || (acts[m].Beat? && acts[m].token == token))
  }

  /** Whenever anything happens after `c` and before `n`, the last renewal is at most `gapMs` ago. */
  ghost predicate Punctual(acts: seq<Action>, times: seq<int>, c: nat, n: nat, token: ClaimToken, gapMs: int)
    requires n <= |acts| == |times|
  {
    forall i | c < i < n :: RenewedRecently(acts, times, c, i, token, gapMs)
  }

  ghost predicate RenewedRecently(acts: seq<Action>, times: seq<int>, c: nat, i: nat, token: ClaimToken, gapMs: int)
    requires i < |acts| == |times|
  {
    exists m | c <= m < i :: Renews(acts, c, token, m) && times[i] - times[m] <= gapMs
  }

  /** The worker itself closes its item. */
  ghost predicate Closes(a: Action, token: ClaimToken) {
    (a.Commit? || a.Reject? || a.Recover?) && Actor(a) == Some(token)
  }

  /** One action of the run, seen from a held claim that it does not find expired. */
  lemma StepKeepsClaim(cfg: Config, s: Sys, a: Action, token: ClaimToken)
    requires WorkersOk(s) && Enabled(cfg, s, a) && token in s.workers && Holds(s.q, s.workers[token].ticket)
    requires !Closes(a, token)
    requires a.ClaimNext? ==> s.q.rows[s.workers[token].ticket.id].claim.value.expiresAt > a.input.claimedAt
    ensures var ticket := s.workers[token].ticket;
            var q' := Apply(cfg, s, a).q;
            && Holds(q', ticket)
            && q'.rows[ticket.id].leaseTimeouts == s.q.rows[ticket.id].leaseTimeouts
            && q'.rows[ticket.id].claim.value.expiresAt
               == if a.Beat? && a.token == token then a.expiresAt else s.q.rows[ticket.id].claim.value.expiresAt
  {
    assert WorkerOk(s, token);
    if Actor(a).Some? { assert WorkerOk(s, Actor(a).value); }
    hide HasConflict, Conflicts, WellPlaced, NothingEligible;
  }

  /** The claim issued at `c` is held before action `n`, without a lease timeout since, and its lease
      outlasts every renewal so far by the full lease. */
  ghost predicate HeldFor(trace: seq<Sys>, acts: seq<Action>, times: seq<int>, c: nat, token: ClaimToken, n: nat,
                          leaseMs: int)
    requires c < n <= |acts| == |times| && |trace| == |acts| + 1 && token in trace[c + 1].workers
  {
    var ticket := trace[c + 1].workers[token].ticket;
    && token in trace[n].workers && trace[n].workers[token].ticket == ticket
    && Holds(trace[n].q, ticket)
    && trace[n].q.rows[ticket.id].leaseTimeouts == ticket.leaseTimeouts
    && Outlasts(acts, times, c, token, n, leaseMs, trace[n].q.rows[ticket.id].claim.value.expiresAt)
  }

  ghost predicate Outlasts(acts: seq<Action>, times: seq<int>, c: nat, token: ClaimToken, n: nat, leaseMs: int,
                           expiry: int)
    requires n <= |acts| == |times|
  {
    forall m | c <= m < n && Renews(acts, c, token, m) :: expiry >= times[m] + leaseMs
  }

  /** A renewal at `n` starts the lease anew; anything else leaves it as it was. */
  lemma OutlastsNext(acts: seq<Action>, times: seq<int>, c: nat, token: ClaimToken, n: nat, leaseMs: int, expiry: int)
    requires c < n < |acts| == |times| && forall i, j | 0 <= i < j < |times| :: times[i] <= times[j]
    requires Outlasts(acts, times, c, token, n, leaseMs, expiry)
    ensures Outlasts(acts, times, c, token, n + 1, leaseMs,
                     if acts[n].Beat? && acts[n].token == token then times[n] + leaseMs else expiry)
  {
  }

  /** What one action leaves of a claim whose last renewal is recent. */
  lemma PunctualStep(cfg: Config, leaseMs: int, trace: seq<Sys>, acts: seq<Action>, times: seq<int>,
                     c: nat, token: ClaimToken, n: nat, gapMs: int)
    requires ValidConfig(cfg) && TimedRun(cfg, leaseMs, trace, acts, times) && gapMs < leaseMs
    requires c < n < |acts| && token in trace[c + 1].workers && HeldFor(trace, acts, times, c, token, n, leaseMs)
    requires RenewedRecently(acts, times, c, n, token, gapMs) && !Closes(acts[n], token)
    ensures HeldFor(trace, acts, times, c, token, n + 1, leaseMs)
  {
    hide Enabled, Apply, Holds, Init, Inv, Outlasts, Renews, Closes;
    var ticket := trace[c + 1].workers[token].ticket;
    RunKeepsInv(cfg, trace, acts, n);
    InvWorkers(cfg, trace[n]);
    StepKeepsHistory(cfg, trace[n], acts[n]);
    HeldRow(trace[n].q, ticket);
    var expiry := trace[n].q.rows[ticket.id].claim.value.expiresAt;
    RecentlyRenewedIsValid(acts, times, c, n, token, gapMs, leaseMs, expiry);
    StepKeepsClaim(cfg, trace[n], acts[n], token);
    HeldRow(trace[n + 1].q, ticket);
    OutlastsNext(acts, times, c, token, n, leaseMs, expiry);
  }

  lemma RecentlyRenewedIsValid(acts: seq<Action>, times: seq<int>, c: nat, n: nat, token: ClaimToken, gapMs: int,
                               leaseMs: int, expiry: int)
    requires n < |acts| == |times| && gapMs < leaseMs
    requires RenewedRecently(acts, times, c, n, token, gapMs) && Outlasts(acts, times, c, token, n, leaseMs, expiry)
    ensures expiry > times[n]
  {
  }

  /** While a punctual worker has not closed its item it holds its claim, and the lease outlasts
      every renewal so far by the full lease. */
  lemma {:induction false} PunctualHolds(
      cfg: Config, leaseMs: int, trace: seq<Sys>, acts: seq<Action>, times: seq<int>,
      c: nat, token: ClaimToken, n: nat, gapMs: int)
    requires ValidConfig(cfg) && TimedRun(cfg, leaseMs, trace, acts, times) && gapMs < leaseMs
    requires Issues(trace, acts, c, token) && c < n <= |acts| && Punctual(acts, times, c, n, token, gapMs)
    requires forall k | c < k < n :: !Closes(acts[k], token)
    ensures HeldFor(trace, acts, times, c, token, n, leaseMs)
    decreases n
  {
    hide Enabled, Apply, Init, RenewedRecently, Closes;
    if n == c + 1 {
      IssuedClaim(cfg, trace[c], acts[c], token);
    } else {
      hide HeldFor;
      PunctualHolds(cfg, leaseMs, trace, acts, times, c, token, n - 1, gapMs);
      PunctualStep(cfg, leaseMs, trace, acts, times, c, token, n - 1, gapMs);
    }
  }

  lemma InvWorkers(cfg: Config, s: Sys)
    requires Inv(cfg, s)
    ensures WorkersOk(s)
  {
  }

  lemma HeldRow(q: State, ticket: Ticket)
    requires Holds(q, ticket)
    ensures ticket.id in q.rows && q.rows[ticket.id].claim.Some?
  {
  }

  lemma IssuedClaim(cfg: Config, s: Sys, a: Action, token: ClaimToken)
    requires Enabled(cfg, s, a) && a.ClaimNext? && a.input.claimToken == token && token in Apply(cfg, s, a).workers
    ensures var s' := Apply(cfg, s, a);
            var ticket := s'.workers[token].ticket;
            && Holds(s'.q, ticket) && s'.q.rows[ticket.id].leaseTimeouts == ticket.leaseTimeouts
            && s'.q.rows[ticket.id].claim.value.expiresAt == a.input.claimExpiresAt
  {
  }

  /** No claim in the run takes over, or times out, the item of a punctual worker. */
  lemma PunctualWorkerIsLeftAlone(
      cfg: Config, leaseMs: int, trace: seq<Sys>, acts: seq<Action>, times: seq<int>,
      c: nat, token: ClaimToken, n: nat, gapMs: int, i: nat)
    requires ValidConfig(cfg) && TimedRun(cfg, leaseMs, trace, acts, times) && gapMs < leaseMs
    requires Issues(trace, acts, c, token) && c < n <= |acts| && Punctual(acts, times, c, n, token, gapMs)
    requires forall k | c < k < n :: !Closes(acts[k], token)
    requires c < i < n && acts[i].ClaimNext?
    ensures acts[i].head != Some(trace[c + 1].workers[token].ticket.id)
  {
    PunctualHolds(cfg, leaseMs, trace, acts, times, c, token, i, gapMs);
    assert RenewedRecently(acts, times, c, i, token, gapMs);
    var m :| c <= m < i && Renews(acts, c, token, m) && times[i] - times[m] <= gapMs;
    assert Enabled(cfg, trace[i], acts[i]);
  }
}
