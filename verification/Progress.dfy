/** How much work a run can contain. */
module Progress {
  import opened Domain
  import opened Queue
  import opened Protocol
  import opened ProtocolInvariant
  import opened Safety
  import opened Sums

  /** What a row can still cost: two writes per attempt left, one per lease timeout left. */
  function Weight(cfg: Config, row: Row): int {
    if Terminal(row.status) then 0
    else 2 * (cfg.maxTransientFailures - row.transientFailures) + (cfg.maxLeaseTimeouts - row.leaseTimeouts)
         - if row.status.PROCESSING? then 1 else 0
  }

  ghost function Weights(cfg: Config, rows: map<RequestId, Row>): map<RequestId, int> {
    map id | id in rows :: Weight(cfg, rows[id])
  }

  ghost function Remaining(cfg: Config, q: State): int {
    Sum(Weights(cfg, q.rows))
  }

  lemma RowWrite(cfg: Config, rows: map<RequestId, Row>, id: RequestId, row: Row)
    ensures Sum(Weights(cfg, rows[id := row]))
            == Sum(Weights(cfg, rows)) + Weight(cfg, row) - if id in rows then Weight(cfg, rows[id]) else 0
  {
    SumUpdate(Weights(cfg, rows), id, Weight(cfg, row));
    assert Weights(cfg, rows[id := row]) == Weights(cfg, rows)[id := Weight(cfg, row)];
  }

  /** A write to the queue that is neither a new request nor a heartbeat. */
  ghost predicate Works(s: Sys, a: Action, s': Sys) {
    s'.q != s.q && !a.Save? && !a.Beat?
  }

  /** The request a working action writes. */
  ghost function Worked(s: Sys, a: Action): RequestId
    requires !a.Save? && !a.Beat? && (a.ClaimNext? ==> a.head.Some?) && (!a.ClaimNext? ==> a.token in s.workers)
  {
    if a.ClaimNext? then a.head.value else s.workers[a.token].ticket.id
  }

  lemma RowBudget(cfg: Config, s: Sys, id: RequestId)
    requires id in s.q.rows ==> RowOk(cfg, s, id)
    ensures id in s.q.rows && !Terminal(s.q.rows[id].status) ==>
              && s.q.rows[id].transientFailures < cfg.maxTransientFailures
              && s.q.rows[id].leaseTimeouts <= cfg.maxLeaseTimeouts
  {
  }

  lemma WorkOnOneRow(cfg: Config, s: Sys, a: Action)
    requires Enabled(cfg, s, a) && Works(s, a, Apply(cfg, s, a))
    requires RowsOk(cfg, s) && WorkersOk(s)
    ensures (a.ClaimNext? ==> a.head.Some?) && (!a.ClaimNext? ==> a.token in s.workers)
    ensures var id := Worked(s, a);
            && id in s.q.rows && id in Apply(cfg, s, a).q.rows
            && Apply(cfg, s, a).q.rows == s.q.rows[id := Apply(cfg, s, a).q.rows[id]]
            && Weight(cfg, Apply(cfg, s, a).q.rows[id]) < Weight(cfg, s.q.rows[id])
  {
    hide RowOk, RowsOk, WorkersOk, HasConflict, NothingEligible, WellPlaced;
    if a.ClaimNext? {
      HeadIsOpen(s.q, a.head.value, a.input, a.skipped);
    }
    hide IsHead;
    var id := Worked(s, a);
    assert RowOk(cfg, s, id) by { RowOfInv(cfg, s, id); }
    RowBudget(cfg, s, id);
  }

  lemma RowOfInv(cfg: Config, s: Sys, id: RequestId)
    requires RowsOk(cfg, s) && id in s.q.rows
    ensures RowOk(cfg, s, id)
  {
  }

  /** Every such write uses up some of the remaining work. */
  lemma WorkDecreases(cfg: Config, s: Sys, a: Action)
    requires ValidConfig(cfg) && Inv(cfg, s) && Enabled(cfg, s, a) && Works(s, a, Apply(cfg, s, a))
    ensures Remaining(cfg, Apply(cfg, s, a).q) < Remaining(cfg, s.q)
    ensures Apply(cfg, s, a).q.rows.Keys == s.q.rows.Keys
  {
    hide RowOk, WorkerOk;
    WorkOnOneRow(cfg, s, a);
    hide Apply, Enabled, Works;
    var id := Worked(s, a);
    RowWrite(cfg, s.q.rows, id, Apply(cfg, s, a).q.rows[id]);
  }

  lemma BeatKeepsRemaining(cfg: Config, s: Sys, a: Action)
    requires Enabled(cfg, s, a) && a.Beat?
    ensures Remaining(cfg, Apply(cfg, s, a).q) == Remaining(cfg, s.q)
    ensures Apply(cfg, s, a).q.rows.Keys == s.q.rows.Keys
  {
    assert Weights(cfg, Apply(cfg, s, a).q.rows) == Weights(cfg, s.q.rows);
  }

  ghost function WorkIn(trace: seq<Sys>, acts: seq<Action>): nat
    requires |trace| == |acts| + 1
  {
    if acts == [] then 0
    else
      var n := |acts| - 1;
      WorkIn(trace[..n + 1], acts[..n]) + if Works(trace[n], acts[n], trace[n + 1]) then 1 else 0
  }

  /** The most one request can ever cost. */
  function Quota(cfg: Config): nat {
    2 * cfg.maxTransientFailures + cfg.maxLeaseTimeouts
  }

  lemma OneMore(quota: int, n: int)
    ensures quota * (n + 1) == quota * n + quota
  {
  }

  lemma {:induction false} InitialWork(cfg: Config, rows: map<RequestId, Row>)
    requires forall id | id in rows :: Weight(cfg, rows[id]) == Quota(cfg)
    ensures Sum(Weights(cfg, rows)) == Quota(cfg) * |rows|
    decreases |rows|
  {
    if rows == map[] {
      assert Weights(cfg, rows) == map[];
    } else {
      var id :| id in rows;
      hide Weight, Quota;
      InitialWork(cfg, rows - {id});
      RowWrite(cfg, rows - {id}, id, rows[id]);
      assert rows == (rows - {id})[id := rows[id]];
      assert |rows| == |rows - {id}| + 1;
      OneMore(Quota(cfg), |rows - {id}|);
    }
  }

  lemma SaveAddsQuota(cfg: Config, s: Sys, a: Action)
    requires Enabled(cfg, s, a) && a.Save?
    ensures Remaining(cfg, Apply(cfg, s, a).q) == Remaining(cfg, s.q) + Quota(cfg)
    ensures |Apply(cfg, s, a).q.rows| == |s.q.rows| + 1
  {
    RowWrite(cfg, s.q.rows, a.id, Apply(cfg, s, a).q.rows[a.id]);
    assert Apply(cfg, s, a).q.rows.Keys == s.q.rows.Keys + {a.id};
  }

  lemma {:induction false} WorkAndRemaining(cfg: Config, trace: seq<Sys>, acts: seq<Action>)
    requires ValidConfig(cfg) && Run(cfg, trace, acts)
    ensures WorkIn(trace, acts) + Remaining(cfg, trace[|acts|].q) <= Quota(cfg) * |trace[|acts|].q.rows|
  {
    hide Enabled, Apply, Inv;
    if acts == [] {
      InitialWork(cfg, trace[0].q.rows);
    } else {
      var n := |acts| - 1;
      WorkAndRemaining(cfg, trace[..n + 1], acts[..n]);
      RunKeepsInv(cfg, trace, acts, n);
      StepWork(cfg, trace[n], acts[n]);
    }
  }

  lemma StepWork(cfg: Config, s: Sys, a: Action)
    requires ValidConfig(cfg) && Inv(cfg, s) && Enabled(cfg, s, a)
    ensures var s' := Apply(cfg, s, a);
            (if Works(s, a, s') then 1 else 0) + Remaining(cfg, s'.q) - Remaining(cfg, s.q)
            <= Quota(cfg) * |s'.q.rows| - Quota(cfg) * |s.q.rows|
  {
    hide RowOk, WorkerOk, BookingOk, Apply, Enabled, Quota, Remaining;
    var s' := Apply(cfg, s, a);
    if a.Save? {
      SaveAddsQuota(cfg, s, a);
      OneMore(Quota(cfg), |s.q.rows|);
    } else if a.Beat? {
      BeatKeepsRemaining(cfg, s, a);
      assert |s'.q.rows.Keys| == |s.q.rows.Keys|;
    } else if s'.q != s.q {
      WorkDecreases(cfg, s, a);
      assert |s'.q.rows.Keys| == |s.q.rows.Keys|;
    }
  }

  /** A run writes at most 2T + L times per request, heartbeats and the requests themselves apart. */
  lemma WorkIsBounded(cfg: Config, trace: seq<Sys>, acts: seq<Action>)
    requires ValidConfig(cfg) && Run(cfg, trace, acts)
    ensures WorkIn(trace, acts) <= Quota(cfg) * |trace[|acts|].q.rows|
  {
    WorkAndRemaining(cfg, trace, acts);
    RunKeepsInv(cfg, trace, acts, |acts|);
    var last := trace[|acts|];
    forall id | id in last.q.rows ensures Weight(cfg, last.q.rows[id]) >= 0 { assert RowOk(cfg, last, id); }
    SumNonNegative(Weights(cfg, last.q.rows));
  }
}
