/** Any number of workers over the tables, one transaction at a time, refine the protocol: every
    theorem about reachable protocol states holds of every reachable database. */
module PostgresProtocol {
  import opened Domain
  import opened Queue
  import opened Protocol
  import opened ProtocolInvariant
  import opened Safety
  import opened Postgres
  import opened PostgresViews

  datatype PgSys = PgSys(db: Db, workers: map<ClaimToken, Worker>)

  datatype PgAction =
    | SaveRequest(request: ReservationRequest, sequence: nat)
    | ClaimRequest(input: ClaimInput, skipped: set<RequestId>, found: Option<RequestId>)
    | HeartbeatRequest(token: ClaimToken, at: int, expiresAt: int)
    | FindConflict(token: ClaimToken, conflict: Option<ReservationId>)
    | ConfirmRequest(token: ClaimToken, rid: ReservationId, seatIds: seq<SeatId>, confirmedAt: int, completedAt: int)
    | RejectRequest(token: ClaimToken, completedAt: int)
    | HandleFailure(token: ClaimToken, completedAt: int)
    | DependencyThrows(token: ClaimToken)
    | Ends(token: ClaimToken)

  ghost function Abs(p: PgSys): Sys {
    Sys(View(p.db), p.workers)
  }

  /** The reservation the processor builds from its claimed item. */
  function ReservationFor(ticket: Ticket, rid: ReservationId, seatIds: seq<SeatId>, confirmedAt: int): Reservation {
    Reservation(rid, ticket.demand.provider, ticket.id, ticket.demand.screening, seatIds, ticket.demand.user,
                confirmedAt)
  }

  function Confirming(cfg: Config, p: PgSys, token: ClaimToken, rid: ReservationId, seatIds: seq<SeatId>,
                      confirmedAt: int, completedAt: int): ConfirmOutcome
    requires token in p.workers
  {
    var w := p.workers[token];
    ConfirmTx(cfg.catalog, p.db, w.ticket, ReservationFor(w.ticket, rid, seatIds, confirmedAt),
              AttemptBy(w, completedAt, Confirmed(rid)))
  }

  function Rejecting(p: PgSys, token: ClaimToken, completedAt: int): Option<Db>
    requires token in p.workers && p.workers[token].phase.Conflicted?
  {
    var w := p.workers[token];
    SettleTx(p.db, w.ticket, REJECTED, false, AttemptBy(w, completedAt, Rejected(w.phase.conflict)))
  }

  function Handling(cfg: Config, p: PgSys, token: ClaimToken, completedAt: int): Option<Db>
    requires token in p.workers
  {
    var w := p.workers[token];
    SettleTx(p.db, w.ticket,
             if w.ticket.transientFailures + 1 < cfg.maxTransientFailures then REQUESTED else FAILED,
             true, AttemptBy(w, completedAt, UnexpectedError))
  }

  ghost predicate PgEnabled(cfg: Config, p: PgSys, a: PgAction) {
    match a
    case SaveRequest(request, sequence) =>
      && request.status.REQUESTED? && request.seatIds != [] && SaveTx(cfg.catalog, p.db, request, sequence).Saved?
      && forall id | id in p.db.requests :: p.db.requests[id].sequence != sequence
    case ClaimRequest(input, skipped, found) =>
      && input.claimToken !in p.workers
      && input.maxTransientFailures == cfg.maxTransientFailures && input.maxLeaseTimeouts == cfg.maxLeaseTimeouts
      && ClaimQuery(p.db, input, skipped, found)
    case HeartbeatRequest(token, _, _) => token in p.workers
    case FindConflict(token, found) =>
      && token in p.workers && (p.workers[token].phase.Looking? || p.workers[token].phase.Aborted?)
      && LookupQuery(p.db, p.workers[token].ticket.demand.screening, p.workers[token].ticket.demand.seats, found)
    case ConfirmRequest(token, _, seatIds, _, _) =>
      && token in p.workers && p.workers[token].phase.Clear?
      && NoDuplicates(seatIds) && SeatSet(seatIds) == p.workers[token].ticket.demand.seats
    case RejectRequest(token, _) => token in p.workers && p.workers[token].phase.Conflicted?
    case HandleFailure(token, _) => token in p.workers && p.workers[token].phase.Erring?
    case DependencyThrows(token) => token in p.workers && !p.workers[token].phase.Done?
    case Ends(token) => token in p.workers
  }

  function Goto(p: PgSys, db: Db, token: ClaimToken, phase: Phase): PgSys
    requires token in p.workers
  {
    PgSys(db, p.workers[token := p.workers[token].(phase := phase)])
  }

  ghost function PgApply(cfg: Config, p: PgSys, a: PgAction): PgSys
    requires PgEnabled(cfg, p, a)
  {
    match a
    case SaveRequest(request, sequence) => p.(db := SaveTx(cfg.catalog, p.db, request, sequence).db)
    case ClaimRequest(input, _, found) =>
      if found.None? then p
      else
        var (db, ticket) := ClaimTx(p.db, input, found.value);
        PgSys(db, if ticket.None? then p.workers
                  else p.workers[input.claimToken := Worker(ticket.value, input.claimedAt, Looking)])
    case HeartbeatRequest(token, at, expiresAt) =>
      p.(db := HeartbeatTx(p.db, p.workers[token].ticket, at, expiresAt).0)
    case FindConflict(token, found) =>
      Goto(p, p.db, token,
           if found.Some? then Conflicted(found.value) else if p.workers[token].phase.Aborted? then Erring else Clear)
    case ConfirmRequest(token, rid, seatIds, confirmedAt, completedAt) =>
      (match Confirming(cfg, p, token, rid, seatIds, confirmedAt, completedAt)
       case Committed(db) => Goto(p, db, token, Done)
       case SeatConstraint => Goto(p, p.db, token, Aborted)
       case OtherFailure => Goto(p, p.db, token, Erring))
    case RejectRequest(token, completedAt) =>
      var rejected := Rejecting(p, token, completedAt);
      if rejected.Some? then Goto(p, rejected.value, token, Done) else Goto(p, p.db, token, Erring)
    case HandleFailure(token, completedAt) =>
      var handled := Handling(cfg, p, token, completedAt);
      Goto(p, if handled.Some? then handled.value else p.db, token, Done)
    case DependencyThrows(token) => Goto(p, p.db, token, Erring)
    case Ends(token) => Goto(p, p.db, token, Done)
  }

  /** The protocol action a database step amounts to: a confirm that meets the seat constraint is an
      abort, a transaction that finds its claim lost is a thrown error. */
  ghost function ActionOf(cfg: Config, p: PgSys, a: PgAction): Action
    requires PgEnabled(cfg, p, a)
  {
    match a
    case SaveRequest(request, sequence) =>
      Save(request.id, Demand(request.movieProviderId, request.screeningId, SeatSet(request.seatIds),
                              request.requestedByUserId), sequence)
    case ClaimRequest(input, skipped, found) => ClaimNext(input, skipped, found)
    case HeartbeatRequest(token, at, expiresAt) => Beat(token, at, expiresAt)
    case FindConflict(token, found) => Lookup(token, found)
    case ConfirmRequest(token, rid, seatIds, confirmedAt, completedAt) =>
      (match Confirming(cfg, p, token, rid, seatIds, confirmedAt, completedAt)
       case Committed(_) => Commit(token, rid, confirmedAt, completedAt)
       case SeatConstraint => Abort(token)
       case OtherFailure => Throw(token))
    case RejectRequest(token, completedAt) =>
      if Rejecting(p, token, completedAt).Some? then Reject(token, completedAt) else Throw(token)
    case HandleFailure(token, completedAt) => Recover(token, completedAt)
    case DependencyThrows(token) => Throw(token)
    case Ends(token) => Stop(token)
  }

  // ---------- the schema is kept ----------

  lemma RequestUpdateKeepsSchema(catalog: Catalog, db: Db, id: RequestId, row: RequestRow)
    requires SchemaOk(catalog, db) && id in db.requests
    requires row.movieProviderId == db.requests[id].movieProviderId && row.screeningId == db.requests[id].screeningId
    requires row.sequence == db.requests[id].sequence
    ensures SchemaOk(catalog, db.(requests := db.requests[id := row]))
  {
  }

  lemma AppendKeepsSchema(catalog: Catalog, db: Db, attempt: Attempt)
    requires SchemaOk(catalog, db) && AttemptFits(db.requests, db.reservations, attempt)
    ensures SchemaOk(catalog, db.(attempts := db.attempts + [FromAttempt(attempt)]))
  {
    AttemptRoundTrip(attempt);
  }

  lemma SettleKeepsSchema(catalog: Catalog, db: Db, ticket: Ticket, status: Status, bump: bool, attempt: Attempt)
    requires SchemaOk(catalog, db) && SettleTx(db, ticket, status, bump, attempt).Some?
    ensures SchemaOk(catalog, SettleTx(db, ticket, status, bump, attempt).value)
  {
    AppendKeepsSchema(catalog, db, attempt);
    var appended := db.(attempts := db.attempts + [FromAttempt(attempt)]);
    RequestUpdateKeepsSchema(catalog, appended, ticket.id,
                             UpdateClaimedRequestStatus(db.requests, ticket.id, status, bump)[ticket.id]);
  }

  lemma ClaimKeepsSchema(catalog: Catalog, db: Db, input: ClaimInput, id: RequestId)
    requires SchemaOk(catalog, db) && id in db.requests
    ensures SchemaOk(catalog, ClaimTx(db, input, id).0)
  {
    var (db', ticket) := ClaimTx(db, input, id);
    if ticket.None? {
      var attempt := Attempt(id, db.requests[id].sequence, input.claimedAt, input.claimedAt, LeaseTimeout);
      AppendKeepsSchema(catalog, db, attempt);
      RequestUpdateKeepsSchema(catalog, db.(attempts := db.attempts + [FromAttempt(attempt)]), id, db'.requests[id]);
    } else {
      RequestUpdateKeepsSchema(catalog, db, id, db'.requests[id]);
    }
  }

  lemma SaveKeepsSchema(catalog: Catalog, db: Db, request: ReservationRequest, sequence: nat)
    requires SchemaOk(catalog, db) && SaveTx(catalog, db, request, sequence).Saved?
    requires forall id | id in db.requests :: db.requests[id].sequence != sequence
    ensures SchemaOk(catalog, SaveTx(catalog, db, request, sequence).db)
  {
  }

  lemma ConfirmKeepsSchema(catalog: Catalog, db: Db, ticket: Ticket, reservation: Reservation, attempt: Attempt)
    requires SchemaOk(catalog, db) && ConfirmTx(catalog, db, ticket, reservation, attempt).Committed?
    ensures SchemaOk(catalog, ConfirmTx(catalog, db, ticket, reservation, attempt).db)
  {
    var db' := ConfirmTx(catalog, db, ticket, reservation, attempt).db;
    var auditoriumId := catalog.screenings[reservation.screeningId].auditoriumId;
    InsertExactly(db.reservationSeats, reservation, auditoriumId, reservation.seatIds);
    var inserted := db.(reservations := db'.reservations, reservationSeats := db'.reservationSeats);
    assert SchemaOk(catalog, inserted) by {
      InsertKeepsSchema(catalog, db, reservation, auditoriumId, db'.reservations[reservation.id]);
    }
    AppendKeepsSchema(catalog, inserted, attempt);
    RequestUpdateKeepsSchema(catalog, inserted.(attempts := db'.attempts), ticket.id, db'.requests[ticket.id]);
  }

  lemma InsertKeepsSchema(catalog: Catalog, db: Db, reservation: Reservation, auditoriumId: AuditoriumId,
                          row: ReservationRow)
    requires SchemaOk(catalog, db) && NewReservationFits(db, reservation)
    requires row.movieProviderId == reservation.movieProviderId && row.screeningId == reservation.screeningId
    requires row.requestId == reservation.reservationRequestId
    requires forall seatId | seatId in reservation.seatIds ::
               && SeatFits(catalog, reservation.movieProviderId, reservation.screeningId, auditoriumId, seatId)
               && !HasSeatRow(db.reservationSeats, reservation.screeningId, seatId)
    ensures SchemaOk(catalog, db.(
              reservations := db.reservations[reservation.id := row],
              reservationSeats := db.reservationSeats + SeatRowsOf(reservation, auditoriumId, reservation.seatIds)))
  {
    var rows' := db.reservationSeats + SeatRowsOf(reservation, auditoriumId, reservation.seatIds);
    forall a, b | a in rows' && b in rows' && a.screeningId == b.screeningId && a.seatId == b.seatId ensures a == b {
      if a in db.reservationSeats && b !in db.reservationSeats {
        assert HasSeatRow(db.reservationSeats, reservation.screeningId, b.seatId);
      }
    }
  }

  // ---------- refinement ----------

  ghost predicate Refines(cfg: Config, p: PgSys, a: PgAction)
    requires PgEnabled(cfg, p, a)
  {
    && Enabled(cfg, Abs(p), ActionOf(cfg, p, a))
    && Apply(cfg, Abs(p), ActionOf(cfg, p, a)) == Abs(PgApply(cfg, p, a))
    && SchemaOk(cfg.catalog, PgApply(cfg, p, a).db)
  }

  lemma SaveRefines(cfg: Config, p: PgSys, a: PgAction)
    requires SchemaOk(cfg.catalog, p.db) && PgEnabled(cfg, p, a) && a.SaveRequest?
    ensures Refines(cfg, p, a)
  {
    SaveTxView(cfg.catalog, p.db, a.request, a.sequence);
    SaveKeepsSchema(cfg.catalog, p.db, a.request, a.sequence);
    hide SchemaOk, SaveTx;
  }

  lemma ClaimRefines(cfg: Config, p: PgSys, a: PgAction)
    requires SchemaOk(cfg.catalog, p.db) && PgEnabled(cfg, p, a) && a.ClaimRequest?
    ensures Refines(cfg, p, a)
  {
    hide SchemaOk;
    ClaimQueryFindsHead(p.db, a.input, a.skipped, a.found);
    if a.found.Some? {
      ClaimTxView(p.db, a.input, a.found.value);
      ClaimKeepsSchema(cfg.catalog, p.db, a.input, a.found.value);
    }
    hide IsHead, NothingEligible, ClaimTx, Claimed;
  }

  lemma HeartbeatRefines(cfg: Config, p: PgSys, a: PgAction)
    requires SchemaOk(cfg.catalog, p.db) && PgEnabled(cfg, p, a) && a.HeartbeatRequest?
    ensures Refines(cfg, p, a)
  {
    hide SchemaOk;
    var ticket := p.workers[a.token].ticket;
    HeartbeatTxView(p.db, ticket, a.at, a.expiresAt);
    if HoldsRow(p.db, ticket) {
      RequestUpdateKeepsSchema(cfg.catalog, p.db, ticket.id,
                               HeartbeatTx(p.db, ticket, a.at, a.expiresAt).0.requests[ticket.id]);
    }
  }

  lemma FindRefines(cfg: Config, p: PgSys, a: PgAction)
    requires SchemaOk(cfg.catalog, p.db) && PgEnabled(cfg, p, a) && a.FindConflict?
    ensures Refines(cfg, p, a)
  {
    LookupFindsConflict(cfg.catalog, p.db, p.workers[a.token].ticket.demand, a.conflict);
    hide SchemaOk, LookupQuery;
  }

  lemma ConfirmRefines(cfg: Config, p: PgSys, a: PgAction)
    requires SchemaOk(cfg.catalog, p.db) && PgEnabled(cfg, p, a) && a.ConfirmRequest?
    requires var ticket := p.workers[a.token].ticket;
             && ticket.id in p.db.requests && WellPlaced(cfg.catalog, ticket.demand)
             && View(p.db).rows[ticket.id].demand == ticket.demand
    ensures Refines(cfg, p, a)
  {
    hide SchemaOk, WellPlaced, RowsView, BookingsView, LogView;
    var w := p.workers[a.token];
    var reservation := ReservationFor(w.ticket, a.rid, a.seatIds, a.confirmedAt);
    var attempt := AttemptBy(w, a.completedAt, Confirmed(a.rid));
    ConfirmTxView(cfg.catalog, p.db, w.ticket, reservation, attempt);
    if ConfirmTx(cfg.catalog, p.db, w.ticket, reservation, attempt).Committed? {
      ConfirmKeepsSchema(cfg.catalog, p.db, w.ticket, reservation, attempt);
    }
    hide ConfirmTx, HasConflict, IsHead, NothingEligible, Owns;
  }

  lemma RejectRefines(cfg: Config, p: PgSys, a: PgAction)
    requires SchemaOk(cfg.catalog, p.db) && PgEnabled(cfg, p, a) && a.RejectRequest?
    requires WorkerOk(Abs(p), a.token)
    ensures Refines(cfg, p, a)
  {
    hide SchemaOk, SettleTx, Owns, RowsView, ReservationSeats, LogView, HasConflict, Conflicts, Settle;
    var w := p.workers[a.token];
    var attempt := AttemptBy(w, a.completedAt, Rejected(w.phase.conflict));
    KeysView(p.db);
    SettleTxView(p.db, w.ticket, REJECTED, false, attempt);
    if SettleTx(p.db, w.ticket, REJECTED, false, attempt).Some? {
      SettleKeepsSchema(cfg.catalog, p.db, w.ticket, REJECTED, false, attempt);
    }
    hide WorkerOk;
  }

  lemma HandleRefines(cfg: Config, p: PgSys, a: PgAction)
    requires SchemaOk(cfg.catalog, p.db) && PgEnabled(cfg, p, a) && a.HandleFailure?
    requires WorkerOk(Abs(p), a.token)
    ensures Refines(cfg, p, a)
  {
    hide SchemaOk, SettleTx, Owns, RowsView, ReservationSeats, LogView, Settle;
    var w := p.workers[a.token];
    var attempt := AttemptBy(w, a.completedAt, UnexpectedError);
    KeysView(p.db);
    var status := if w.ticket.transientFailures + 1 < cfg.maxTransientFailures then REQUESTED else FAILED;
    SettleTxView(p.db, w.ticket, status, true, attempt);
    if SettleTx(p.db, w.ticket, status, true, attempt).Some? {
      SettleKeepsSchema(cfg.catalog, p.db, w.ticket, status, true, attempt);
    }
    hide WorkerOk;
  }

  /** Every database step is the protocol action it amounts to, and keeps the schema. */
  lemma StepRefines(cfg: Config, p: PgSys, a: PgAction)
    requires SchemaOk(cfg.catalog, p.db) && Inv(cfg, Abs(p)) && PgEnabled(cfg, p, a)
    ensures Refines(cfg, p, a)
  {
    hide SchemaOk, BookingOk, Refines;
    match a
    case SaveRequest(_, _) => SaveRefines(cfg, p, a);
    case ClaimRequest(_, _, _) => ClaimRefines(cfg, p, a);
    case HeartbeatRequest(_, _, _) => HeartbeatRefines(cfg, p, a);
    case FindConflict(_, _) => FindRefines(cfg, p, a);
    case ConfirmRequest(token, _, _, _, _) =>
      assert WorkerOk(Abs(p), token) && RowOk(cfg, Abs(p), p.workers[token].ticket.id);
      ConfirmRefines(cfg, p, a);
    case RejectRequest(token, _) =>
      assert WorkerOk(Abs(p), token);
      RejectRefines(cfg, p, a);
    case HandleFailure(token, _) =>
      assert WorkerOk(Abs(p), token);
      HandleRefines(cfg, p, a);
    case DependencyThrows(_) => MoveRefines(cfg, p, a);
    case Ends(_) => MoveRefines(cfg, p, a);
  }

  lemma MoveRefines(cfg: Config, p: PgSys, a: PgAction)
    requires SchemaOk(cfg.catalog, p.db) && PgEnabled(cfg, p, a) && (a.DependencyThrows? || a.Ends?)
    ensures Refines(cfg, p, a)
  {
    hide SchemaOk;
  }

  // ---------- runs ----------

  ghost predicate PgRun(cfg: Config, trace: seq<PgSys>, acts: seq<PgAction>) {
    && |trace| == |acts| + 1 && Init(cfg, Abs(trace[0])) && SchemaOk(cfg.catalog, trace[0].db)
    && forall i | 0 <= i < |acts| ::
         PgEnabled(cfg, trace[i], acts[i]) && trace[i + 1] == PgApply(cfg, trace[i], acts[i])
  }

  /** A database run is, state by state, a protocol run. */
  lemma {:induction false} PgRunIsRun(cfg: Config, trace: seq<PgSys>, acts: seq<PgAction>)
    returns (sysTrace: seq<Sys>, sysActs: seq<Action>)
    requires ValidConfig(cfg) && PgRun(cfg, trace, acts)
    ensures Run(cfg, sysTrace, sysActs) && |sysTrace| == |trace|
    ensures forall i | 0 <= i < |trace| :: sysTrace[i] == Abs(trace[i])
    ensures forall i | 0 <= i < |trace| :: SchemaOk(cfg.catalog, trace[i].db)
    decreases |acts|
  {
    hide Init, SchemaOk, PgEnabled, PgApply, ActionOf, Enabled, Apply, Inv;
    if acts == [] {
      sysTrace, sysActs := [Abs(trace[0])], [];
    } else {
      var n := |acts| - 1;
      assert PgRun(cfg, trace[..n + 1], acts[..n]);
      var frontTrace, frontActs := PgRunIsRun(cfg, trace[..n + 1], acts[..n]);
      assert frontTrace[n] == Abs(trace[n]) && SchemaOk(cfg.catalog, trace[..n + 1][n].db);
      RunKeepsInv(cfg, frontTrace, frontActs, n);
      StepRefines(cfg, trace[n], acts[n]);
      sysTrace, sysActs := frontTrace + [Abs(trace[n + 1])], frontActs + [ActionOf(cfg, trace[n], acts[n])];
    }
  }

  ghost predicate PgReachable(cfg: Config, p: PgSys) {
    exists trace, acts, i: nat :: PgRun(cfg, trace, acts) && i < |trace| && trace[i] == p
  }

  /** A reachable database satisfies the schema and stands for a reachable protocol state. */
  lemma PgReachableIsReachable(cfg: Config, p: PgSys)
    requires ValidConfig(cfg) && PgReachable(cfg, p)
    ensures Reachable(cfg, Abs(p)) && SchemaOk(cfg.catalog, p.db)
  {
    hide PgRun, Run, SchemaOk;
    var trace: seq<PgSys>, acts: seq<PgAction>, i: nat :| PgRun(cfg, trace, acts) && i < |trace| && trace[i] == p;
    var sysTrace, sysActs := PgRunIsRun(cfg, trace, acts);
    assert sysTrace[i] == Abs(p) && SchemaOk(cfg.catalog, trace[i].db);
  }

  ghost predicate PgLeads(cfg: Config, p: PgSys, p': PgSys) {
    exists trace, acts, i: nat, j: nat ::
      PgRun(cfg, trace, acts) && i <= j < |trace| && trace[i] == p && trace[j] == p'
  }

  lemma PgLeadsLeads(cfg: Config, p: PgSys, p': PgSys)
    requires ValidConfig(cfg) && PgLeads(cfg, p, p')
    ensures Leads(cfg, Abs(p), Abs(p'))
  {
    hide PgRun, Run;
    var trace: seq<PgSys>, acts: seq<PgAction>, i: nat, j: nat :|
      PgRun(cfg, trace, acts) && i <= j < |trace| && trace[i] == p && trace[j] == p';
    var sysTrace, sysActs := PgRunIsRun(cfg, trace, acts);
    assert sysTrace[i] == Abs(p) && sysTrace[j] == Abs(p');
  }

  // ---------- the theorems, read off the tables ----------

  /** No two reservations hold the same seat of a screening, whatever the workers did. */
  lemma TablesNeverSellTwice(cfg: Config, p: PgSys, a: ReservationId, b: ReservationId)
    requires ValidConfig(cfg) && PgReachable(cfg, p) && a in p.db.reservations && b in p.db.reservations && a != b
    requires p.db.reservations[a].screeningId == p.db.reservations[b].screeningId
    ensures ReservationSeats(p.db.reservationSeats, a) !! ReservationSeats(p.db.reservationSeats, b)
  {
    PgReachableIsReachable(cfg, p);
    NoSeatSoldTwice(cfg, Abs(p), a, b);
  }

  /** A CONFIRMED row has one reservation, with the very seats the request listed. */
  lemma TablesMatchConfirmed(cfg: Config, p: PgSys, id: RequestId) returns (rid: ReservationId)
    requires ValidConfig(cfg) && PgReachable(cfg, p) && id in p.db.requests && p.db.requests[id].status.CONFIRMED?
    ensures rid in p.db.reservations && p.db.reservations[rid].requestId == id
    ensures forall other | other in p.db.reservations && p.db.reservations[other].requestId == id :: other == rid
    ensures ReservationSeats(p.db.reservationSeats, rid) == RequestSeats(p.db.requestSeats, id)
    ensures p.db.reservations[rid].reservedByUserId == p.db.requests[id].requestedByUserId
  {
    PgReachableIsReachable(cfg, p);
    ConfirmedMeansOneReservation(cfg, Abs(p), id);
    var all := ReservationsOf(Abs(p).q, id);
    rid :| rid in all;
    assert all - {rid} == {};
    forall other | other in p.db.reservations && p.db.reservations[other].requestId == id ensures other == rid {
      assert other in all && other !in all - {rid};
    }
  }

  /** Between the rolled-back confirm and its follow-up lookup other workers may do anything; the
      lookup still returns a reservation, so the original error is never rethrown. */
  lemma FollowUpLookupFinds(cfg: Config, p: PgSys, token: ClaimToken, found: Option<ReservationId>)
    requires ValidConfig(cfg) && PgReachable(cfg, p)
    requires token in p.workers && p.workers[token].phase.Aborted?
    requires LookupQuery(p.db, p.workers[token].ticket.demand.screening, p.workers[token].ticket.demand.seats, found)
    ensures found.Some?
  {
    PgReachableIsReachable(cfg, p);
    LookupAfterAbortFinds(cfg, Abs(p), token);
    LookupFindsConflict(cfg.catalog, p.db, p.workers[token].ticket.demand, found);
  }
}
