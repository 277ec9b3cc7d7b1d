/** Any number of split confirms of the in-memory adapter in flight at once. */
module InFlight {
  import opened Domain
  import opened Queue
  import opened Protocol
  import opened SplitConfirm

  /** The queue, and the confirms that have made their checks and await, by reservation id. */
  datatype Flight = Flight(q: State, pending: map<ReservationId, Ticket>)

  datatype Move =
    | Begin(rid: ReservationId, ticket: Ticket)
    | End(rid: ReservationId, confirmedAt: int, attempt: Attempt)
    | Other(q: State)

  /** Reservation ids are fresh. Other calls do anything that sells nothing and drops no request:
      claims, heartbeats, saves, releases, failures, rejections, late or not. */
  ghost predicate MoveEnabled(f: Flight, m: Move) {
    match m
    case Begin(rid, ticket) => rid !in f.pending && Checked(f.q, ticket, rid)
    case End(rid, _, _) => rid in f.pending && f.pending[rid].id in f.q.rows
    case Other(q) => q.bookings == f.q.bookings && f.q.rows.Keys <= q.rows.Keys
  }

  ghost function Moved(f: Flight, m: Move): Flight
    requires MoveEnabled(f, m)
  {
    match m
    case Begin(rid, ticket) => f.(pending := f.pending[rid := ticket])
    case End(rid, confirmedAt, attempt) =>
      Flight(Sell(f.q, f.pending[rid], rid, confirmedAt, attempt), f.pending - {rid})
    case Other(q) => f.(q := q)
  }

  ghost predicate FlightRun(trace: seq<Flight>, moves: seq<Move>) {
    && |trace| == |moves| + 1 && trace[0].pending == map[] && Disjoint(trace[0].q)
    && forall i | 0 <= i < |moves| :: MoveEnabled(trace[i], moves[i]) && trace[i + 1] == Moved(trace[i], moves[i])
  }

  /** Move `i` writes a confirm while `rid`, pending too, wants one of the same seats. */
  ghost predicate WrittenBeside(trace: seq<Flight>, moves: seq<Move>, i: int, rid: ReservationId)
    requires FlightRun(trace, moves)
  {
    && 0 <= i < |moves| && moves[i].End? && moves[i].rid != rid && rid in trace[i].pending
    && Overlap(trace[i].pending[moves[i].rid].demand, trace[i].pending[rid].demand)
  }

  /** Before move `n` two confirms that were pending at once, with overlapping demands, were both written. */
  ghost predicate Clash(trace: seq<Flight>, moves: seq<Move>, n: int)
    requires FlightRun(trace, moves)
  {
    exists i, j | 0 <= i < j < n && j < |moves| && moves[j].End? :: WrittenBeside(trace, moves, i, moves[j].rid)
  }

  // ---------- what stays of a pending confirm ----------

  /** A pending confirm keeps its ticket from its check to its writes, and its id stays unused. */
  lemma {:induction false} PendingKept(trace: seq<Flight>, moves: seq<Move>, i: nat, n: nat, rid: ReservationId)
    requires FlightRun(trace, moves) && i <= n < |trace| && rid in trace[n].pending
    ensures rid !in trace[n].q.bookings
    ensures rid in trace[i].pending ==> trace[i].pending[rid] == trace[n].pending[rid]
    decreases n
  {
    hide Conflicts, Overlap, Disjoint;
    if i < n {
      var m := moves[n - 1];
      if !(m.Begin? && m.rid == rid) {
        PendingKept(trace, moves, i, n - 1, rid);
      } else if rid in trace[i].pending {
        StaysInFlight(trace, moves, i, n - 1, rid);
      }
    } else if n > 0 {
      var m := moves[n - 1];
      if !(m.Begin? && m.rid == rid) { PendingKept(trace, moves, n - 1, n - 1, rid); }
    }
  }

  /** A pending id is pending or sold ever after. */
  lemma {:induction false} StaysInFlight(trace: seq<Flight>, moves: seq<Move>, i: nat, n: nat, rid: ReservationId)
    requires FlightRun(trace, moves) && i <= n < |trace| && rid in trace[i].pending
    ensures rid in trace[n].pending || rid in trace[n].q.bookings
    decreases n
  {
    hide Conflicts, Overlap, Disjoint;
    if i < n { StaysInFlight(trace, moves, i, n - 1, rid); }
  }

  // ---------- conflicts come from writes beside ----------

  lemma SaleConflicts(q: State, ticket: Ticket, rid: ReservationId, confirmedAt: int, attempt: Attempt, demand: Demand)
    requires ticket.id in q.rows && rid !in q.bookings
    ensures HasConflict(Sell(q, ticket, rid, confirmedAt, attempt), demand)
       <==> HasConflict(q, demand) || Overlap(ticket.demand, demand)
  {
    var q' := Sell(q, ticket, rid, confirmedAt, attempt);
    if HasConflict(q, demand) {
      var other :| other in q.bookings && Conflicts(q.bookings[other], demand);
      assert Conflicts(q'.bookings[other], demand);
    }
    if Overlap(ticket.demand, demand) { assert Conflicts(q'.bookings[rid], demand); }
  }

  /** A pending confirm has a conflict if and only if another was written beside it meanwhile. */
  lemma {:induction false} ConflictIffWrittenBeside(trace: seq<Flight>, moves: seq<Move>, n: nat, rid: ReservationId)
    requires FlightRun(trace, moves) && n < |trace| && rid in trace[n].pending
    ensures HasConflict(trace[n].q, trace[n].pending[rid].demand)
       <==> exists i | 0 <= i < n :: WrittenBeside(trace, moves, i, rid)
    decreases n
  {
    hide HasConflict, Overlap, Disjoint, Owns;
    if n > 0 {
      var m := moves[n - 1];
      if m.Begin? && m.rid == rid {
        forall i | 0 <= i < n ensures !WrittenBeside(trace, moves, i, rid) {
          if rid in trace[i].pending {
            StaysInFlight(trace, moves, i, n - 1, rid);
          }
        }
      } else {
        ConflictIffWrittenBeside(trace, moves, n - 1, rid);
        if m.End? {
          PendingKept(trace, moves, n - 1, n - 1, m.rid);
          SaleConflicts(trace[n - 1].q, trace[n - 1].pending[m.rid], m.rid, m.confirmedAt, m.attempt,
                        trace[n].pending[rid].demand);
          assert WrittenBeside(trace, moves, n - 1, rid)
            <==> Overlap(trace[n - 1].pending[m.rid].demand, trace[n].pending[rid].demand);
          hide WrittenBeside, FlightRun;
        } else {
          SameBookingsSameConflicts(trace[n - 1].q, trace[n].q, trace[n].pending[rid].demand);
          assert !WrittenBeside(trace, moves, n - 1, rid);
        }
      }
    }
  }

  lemma SameBookingsSameConflicts(q: State, q': State, demand: Demand)
    requires q.bookings == q'.bookings
    ensures HasConflict(q, demand) <==> HasConflict(q', demand)
  {
  }

  // ---------- the theorem ----------

  /** Seats are disjoint if and only if no two confirms that were pending at once and want the same
      seat have both been written. */
  lemma {:induction false} DisjointIffNoClash(trace: seq<Flight>, moves: seq<Move>, n: nat)
    requires FlightRun(trace, moves) && n < |trace|
    ensures Disjoint(trace[n].q) <==> !Clash(trace, moves, n)
    decreases n
  {
    hide HasConflict, Overlap, Disjoint, Owns, WrittenBeside;
    if n > 0 {
      var f, m := trace[n - 1], moves[n - 1];
      DisjointIffNoClash(trace, moves, n - 1);
      if m.End? {
        ConflictIffWrittenBeside(trace, moves, n - 1, m.rid);
        PendingKept(trace, moves, n - 1, n - 1, m.rid);
        SaleIsDisjointIff(f.q, f.pending[m.rid], m.rid, m.confirmedAt, m.attempt);
        ClashGrows(trace, moves, n - 1);
      } else {
        SameBookingsStayDisjoint(f.q, trace[n].q);
        assert Clash(trace, moves, n) <==> Clash(trace, moves, n - 1);
      }
    }
  }

  lemma ClashGrows(trace: seq<Flight>, moves: seq<Move>, n: nat)
    requires FlightRun(trace, moves) && n < |moves| && moves[n].End?
    ensures Clash(trace, moves, n + 1)
       <==> Clash(trace, moves, n) || exists i | 0 <= i < n :: WrittenBeside(trace, moves, i, moves[n].rid)
  {
    hide FlightRun, WrittenBeside;
  }

  lemma SameBookingsStayDisjoint(q: State, q': State)
    requires q.bookings == q'.bookings
    ensures Disjoint(q) <==> Disjoint(q')
  {
  }

  lemma SaleIsDisjointIff(q: State, ticket: Ticket, rid: ReservationId, confirmedAt: int, attempt: Attempt)
    requires ticket.id in q.rows && rid !in q.bookings
    ensures Disjoint(Sell(q, ticket, rid, confirmedAt, attempt)) <==> Disjoint(q) && !HasConflict(q, ticket.demand)
  {
    if Disjoint(q) {
      FinishIsSafeIff(q, ticket, rid, confirmedAt, attempt);
    } else {
      var q' := Sell(q, ticket, rid, confirmedAt, attempt);
      var a, b :| a in q.bookings && b in q.bookings && a != b && Conflicts(q.bookings[a], q.bookings[b].demand);
      assert Conflicts(q'.bookings[a], q'.bookings[b].demand);
    }
  }

  /** Two confirms that have both passed their checks can both be written; together they sell a seat
      twice if and only if they overlap. */
  lemma TwoCanBothBeWritten(q: State, rid: ReservationId, a: Ticket, sid: ReservationId, b: Ticket,
                            confirmedAt: int, x: Attempt, y: Attempt)
    returns (trace: seq<Flight>, moves: seq<Move>)
    requires Disjoint(q) && rid != sid && Checked(q, a, rid) && Checked(q, b, sid)
    ensures FlightRun(trace, moves) && trace[0].q == q
    ensures moves == [Begin(rid, a), Begin(sid, b), Other(q), End(rid, confirmedAt, x), End(sid, confirmedAt, y)]
    ensures trace[5].pending == map[]
    ensures trace[5].q.bookings == q.bookings[rid := BookingFor(a, confirmedAt)][sid := BookingFor(b, confirmedAt)]
    ensures Disjoint(trace[5].q) <==> !Overlap(a.demand, b.demand)
  {
    hide HasConflict, Disjoint, Overlap;
    moves := [Begin(rid, a), Begin(sid, b), Other(q), End(rid, confirmedAt, x), End(sid, confirmedAt, y)];
    var f0 := Flight(q, map[]);
    var f1 := Moved(f0, moves[0]);
    var f2 := Moved(f1, moves[1]);
    var f3 := Moved(f2, moves[2]);
    var f4 := Moved(f3, moves[3]);
    assert f4.pending == map[sid := b];
    var f5 := Moved(f4, moves[4]);
    trace := [f0, f1, f2, f3, f4, f5];
    SaleIsDisjointIff(q, a, rid, confirmedAt, x);
    SaleIsDisjointIff(f4.q, b, sid, confirmedAt, y);
    SaleConflicts(q, a, rid, confirmedAt, x, b.demand);
  }
}
