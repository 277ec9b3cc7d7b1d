/** The in-memory store: maps that the repositories update in place. */
module InMemoryStore {
  import opened Domain
  import opened Queue

  datatype Metadata = Metadata(
    sequence: nat,
    leaseTimeoutCount: nat,
    transientFailureCount: nat,
    claim: Option<Claim>)

  datatype SaveError = AlreadyExists(id: RequestId) | SequenceExhausted

  /** The largest sequence a JavaScript number holds exactly. */
  const MAX_SAFE_INTEGER: nat := 0x1F_FFFF_FFFF_FFFF

  function DemandOf(request: ReservationRequest): Demand {
    Demand(request.movieProviderId, request.screeningId, SeatSet(request.seatIds), request.requestedByUserId)
  }

  function RowOf(request: ReservationRequest, metadata: Metadata): Row {
    Row(DemandOf(request), request.status, metadata.sequence,
        metadata.leaseTimeoutCount, metadata.transientFailureCount, metadata.claim)
  }

  function BookingOf(reservation: Reservation): Booking {
    Booking(reservation.reservationRequestId, Granted(reservation), reservation.confirmedAt)
  }

  /** Sharing a listed seat on the same screening is what the queue calls a conflict. */
  lemma SharedSeatIsConflict(reservation: Reservation, demand: Demand, seatIds: seq<SeatId>)
    requires demand.screening == reservation.screeningId && demand.seats == SeatSet(seatIds)
    ensures Conflicts(BookingOf(reservation), demand)
       <==> exists seatId :: seatId in reservation.seatIds && seatId in seatIds
  {
    if seatId :| seatId in reservation.seatIds && seatId in seatIds {
      assert seatId in BookingOf(reservation).demand.seats * demand.seats;
    }
  }

  /** Requests and metadata go together, and sequence numbers are positive, distinct and below `next`. */
  ghost predicate Numbered(
      requests: map<RequestId, ReservationRequest>, metadata: map<RequestId, Metadata>, next: nat)
  {
    && next >= 1 && requests.Keys == metadata.Keys
    && (forall id | id in requests :: requests[id].id == id)
    && (forall id | id in metadata :: 1 <= metadata[id].sequence < next)
    && forall a, b | a in metadata && b in metadata && a != b :: metadata[a].sequence != metadata[b].sequence
  }

  /** The same requests, apart from their statuses. */
  ghost predicate OnlyStatusesChange(before: map<RequestId, ReservationRequest>,
                                     after: map<RequestId, ReservationRequest>)
  {
    && after.Keys == before.Keys
    && forall id | id in before :: after[id] == before[id].(status := after[id].status)
  }

  lemma StatusesUnchanged(requests: map<RequestId, ReservationRequest>)
    ensures OnlyStatusesChange(requests, requests)
  {
  }

  lemma StatusWritten(requests: map<RequestId, ReservationRequest>, id: RequestId, request: ReservationRequest)
    requires id in requests && request == requests[id].(status := request.status)
    ensures OnlyStatusesChange(requests, requests[id := request])
  {
  }

  ghost function RowsOf(requests: map<RequestId, ReservationRequest>, metadata: map<RequestId, Metadata>)
    : map<RequestId, Row>
  {
    map id | id in requests && id in metadata :: RowOf(requests[id], metadata[id])
  }

  ghost function BookingsOf(reservations: map<ReservationId, Reservation>): map<ReservationId, Booking> {
    map rid | rid in reservations :: BookingOf(reservations[rid])
  }

  /** Writing one request and its metadata writes one row. */
  lemma RowWritten(requests: map<RequestId, ReservationRequest>, metadata: map<RequestId, Metadata>,
                   id: RequestId, request: ReservationRequest, data: Metadata)
    ensures RowsOf(requests[id := request], metadata[id := data])
        == RowsOf(requests, metadata)[id := RowOf(request, data)]
  {
  }

  lemma RewriteKeepsNumbered(requests: map<RequestId, ReservationRequest>, metadata: map<RequestId, Metadata>,
                             next: nat, id: RequestId, request: ReservationRequest, data: Metadata)
    requires Numbered(requests, metadata, next) && id in requests && request.id == id
    requires data.sequence == metadata[id].sequence
    ensures Numbered(requests[id := request], metadata[id := data], next)
  {
    assert requests[id := request].Keys == requests.Keys && metadata[id := data].Keys == metadata.Keys;
  }

  lemma InsertKeepsNumbered(requests: map<RequestId, ReservationRequest>, metadata: map<RequestId, Metadata>,
                            next: nat, request: ReservationRequest)
    requires Numbered(requests, metadata, next) && request.id !in requests
    ensures Numbered(requests[request.id := request], metadata[request.id := Metadata(next, 0, 0, None)], next + 1)
  {
    assert requests[request.id := request].Keys == requests.Keys + {request.id};
    assert metadata[request.id := Metadata(next, 0, 0, None)].Keys == metadata.Keys + {request.id};
  }

  /** `after` is `before` with the request behind all others, all counters at zero. */
  ghost predicate JoinsTheBack(before: State, request: ReservationRequest, sequence: nat, after: State) {
    && (forall other | other in before.rows :: before.rows[other].sequence < sequence)
    && after == before.(rows := before.rows[
                          request.id := Row(DemandOf(request), request.status, sequence, 0, 0, None)])
  }

  /** The two writes of a save, on the maps. */
  lemma RequestJoins(requests: map<RequestId, ReservationRequest>, metadata: map<RequestId, Metadata>, next: nat,
                     reservations: map<ReservationId, Reservation>, log: map<RequestId, seq<Attempt>>,
                     request: ReservationRequest)
    requires Numbered(requests, metadata, next) && request.id !in requests
    ensures var requests' := requests[request.id := request];
            var metadata' := metadata[request.id := Metadata(next, 0, 0, None)];
            && Numbered(requests', metadata', next + 1) && request.id !in metadata
            && JoinsTheBack(State(RowsOf(requests, metadata), BookingsOf(reservations), log), request, next,
                            State(RowsOf(requests', metadata'), BookingsOf(reservations), log))
  {
    assert request.id !in metadata.Keys;
    InsertKeepsNumbered(requests, metadata, next, request);
    RowWritten(requests, metadata, request.id, request, Metadata(next, 0, 0, None));
  }

  lemma StrayIsNotNumbered(requests: map<RequestId, ReservationRequest>, metadata: map<RequestId, Metadata>,
                           next: nat, id: RequestId)
    requires id in requests && id !in metadata
    ensures !Numbered(requests, metadata, next)
  {
    assert id in requests.Keys && id !in metadata.Keys;
  }

  // ---------- what a store is created with ----------

  function SeedRows(requests: seq<ReservationRequest>): map<RequestId, Row> {
    if requests == [] then map[]
    else
      var n := |requests| - 1;
      SeedRows(requests[..n])[requests[n].id := Row(DemandOf(requests[n]), requests[n].status, n + 1, 0, 0, None)]
  }

  function SeedBookings(reservations: seq<Reservation>): map<ReservationId, Booking> {
    if reservations == [] then map[]
    else
      var n := |reservations| - 1;
      SeedBookings(reservations[..n])[reservations[n].id := BookingOf(reservations[n])]
  }

  function SeedLog(attempts: seq<Attempt>): map<RequestId, seq<Attempt>> {
    if attempts == [] then map[] else Append(SeedLog(attempts[..|attempts| - 1]), attempts[|attempts| - 1])
  }

  lemma NoSeeds()
    ensures SeedRows([]) == map[]
  {
  }

  lemma {:induction false} SeededIds(requests: seq<ReservationRequest>)
    ensures forall id :: id in SeedRows(requests) <==> exists i :: 0 <= i < |requests| && requests[i].id == id
  {
    if requests != [] {
      var n := |requests| - 1;
      SeededIds(requests[..n]);
      forall id ensures id in SeedRows(requests) <==> exists i :: 0 <= i < |requests| && requests[i].id == id {
        if i :| 0 <= i < |requests| && requests[i].id == id {
          assert i < n ==> requests[..n][i].id == id;
        }
        if id in SeedRows(requests) && id != requests[n].id {
          assert id in SeedRows(requests[..n]);
          var i :| 0 <= i < n && requests[..n][i].id == id;
          assert requests[i].id == id;
        }
      }
    }
  }

  lemma SeedStep(requests: seq<ReservationRequest>, i: nat)
    requires i < |requests|
    ensures SeedRows(requests[..i + 1])
         == SeedRows(requests[..i])[requests[i].id := Row(DemandOf(requests[i]), requests[i].status, i + 1, 0, 0, None)]
    ensures requests[i].id in SeedRows(requests[..i]) <==> exists j :: 0 <= j < i && requests[j].id == requests[i].id
  {
    assert requests[..i + 1][..i] == requests[..i];
    SeededIds(requests[..i]);
    assert forall j | 0 <= j < i :: requests[..i][j] == requests[j];
  }

  /** Loaded requests are queued in the order given. */
  lemma {:induction false} SeededInOrder(requests: seq<ReservationRequest>, i: nat)
    requires forall j, k | 0 <= j < k < |requests| :: requests[j].id != requests[k].id
    requires i < |requests|
    ensures requests[i].id in SeedRows(requests)
    ensures SeedRows(requests)[requests[i].id] == Row(DemandOf(requests[i]), requests[i].status, i + 1, 0, 0, None)
  {
    var n := |requests| - 1;
    if i < n { SeededInOrder(requests[..n], i); }
  }

  /** Every loaded reservation is there. */
  lemma {:induction false} SeededReservationIds(reservations: seq<Reservation>)
    ensures forall rid :: rid in SeedBookings(reservations) <==>
              exists i :: 0 <= i < |reservations| && reservations[i].id == rid
  {
    hide BookingOf;
    if reservations != [] {
      var n := |reservations| - 1;
      SeededReservationIds(reservations[..n]);
      forall rid
        ensures rid in SeedBookings(reservations) <==> exists i :: 0 <= i < |reservations| && reservations[i].id == rid
      {
        if i :| 0 <= i < |reservations| && reservations[i].id == rid {
          assert i < n ==> reservations[..n][i].id == rid;
        }
        if rid in SeedBookings(reservations) && rid != reservations[n].id {
          assert rid in SeedBookings(reservations[..n]);
          var i :| 0 <= i < n && reservations[..n][i].id == rid;
          assert reservations[i].id == rid;
        }
      }
    }
  }

  ghost predicate LastOfItsId(reservations: seq<Reservation>, i: int) {
    0 <= i < |reservations| && forall j | i < j < |reservations| :: reservations[j].id != reservations[i].id
  }

  /** Of the reservations that share an id the last one stays. */
  lemma {:induction false} SeededLast(reservations: seq<Reservation>, i: int)
    requires LastOfItsId(reservations, i)
    ensures reservations[i].id in SeedBookings(reservations)
    ensures SeedBookings(reservations)[reservations[i].id] == BookingOf(reservations[i])
  {
    hide BookingOf;
    var n := |reservations| - 1;
    if i < n { SeededLast(reservations[..n], i); }
  }

  /** The positions before `n` of the attempts about one request. */
  ghost function Positions(attempts: seq<Attempt>, id: RequestId, n: nat): set<int>
    requires n <= |attempts|
  {
    set i | 0 <= i < n && attempts[i].requestId == id
  }

  lemma PositionsGrow(attempts: seq<Attempt>, id: RequestId, n: nat)
    requires n < |attempts|
    ensures |Positions(attempts, id, n + 1)|
         == |Positions(attempts, id, n)| + if attempts[n].requestId == id then 1 else 0
    ensures forall i: nat | i <= n :: Positions(attempts[..n], id, i) == Positions(attempts, id, i)
  {
    assert Positions(attempts, id, n + 1)
        == Positions(attempts, id, n) + if attempts[n].requestId == id then {n} else {};
    forall i: nat | i <= n ensures Positions(attempts[..n], id, i) == Positions(attempts, id, i) {}
  }

  /** A request's loaded log has one entry for each of its attempts. */
  lemma {:induction false} SeededLogLength(attempts: seq<Attempt>, id: RequestId)
    ensures |LogOf(SeedLog(attempts), id)| == |Positions(attempts, id, |attempts|)|
  {
    if attempts == [] {
      assert Positions(attempts, id, 0) == {};
    } else {
      var n := |attempts| - 1;
      SeededLogLength(attempts[..n], id);
      PositionsGrow(attempts, id, n);
      hide Positions;
    }
  }

  /** They are in list order. */
  lemma {:induction false} SeededLog(attempts: seq<Attempt>, i: nat)
    requires i < |attempts|
    ensures var log := LogOf(SeedLog(attempts), attempts[i].requestId);
            var k := |Positions(attempts, attempts[i].requestId, i)|;
            k < |log| && log[k] == attempts[i]
  {
    var n, id := |attempts| - 1, attempts[i].requestId;
    SeededLogLength(attempts[..n], id);
    PositionsGrow(attempts, id, n);
    hide Positions;
    if i < n { SeededLog(attempts[..n], i); }
  }

  /** What a store is created with, in the order given. */
  ghost predicate LoadedAs(q: State, requests: seq<ReservationRequest>, reservations: seq<Reservation>,
                           attempts: seq<Attempt>)
  {
    && (forall id :: id in q.rows <==> exists i :: 0 <= i < |requests| && requests[i].id == id)
    && (forall i | 0 <= i < |requests| ::
          && requests[i].id in q.rows
          && q.rows[requests[i].id] == Row(DemandOf(requests[i]), requests[i].status, i + 1, 0, 0, None))
    && (forall rid :: rid in q.bookings <==> exists i :: 0 <= i < |reservations| && reservations[i].id == rid)
    && (forall i | LastOfItsId(reservations, i) ::
          && reservations[i].id in q.bookings
          && q.bookings[reservations[i].id] == BookingOf(reservations[i]))
    && (forall id :: |LogOf(q.log, id)| == |Positions(attempts, id, |attempts|)|)
    && forall i | 0 <= i < |attempts| ::
         var log, k := LogOf(q.log, attempts[i].requestId), |Positions(attempts, attempts[i].requestId, i)|;
         k < |log| && log[k] == attempts[i]
  }

  lemma SeedsAreAsGiven(requests: seq<ReservationRequest>, reservations: seq<Reservation>, attempts: seq<Attempt>)
    requires forall j, k | 0 <= j < k < |requests| :: requests[j].id != requests[k].id
    ensures LoadedAs(State(SeedRows(requests), SeedBookings(reservations), SeedLog(attempts)),
                     requests, reservations, attempts)
  {
    hide SeedRows, SeedBookings, SeedLog, LogOf, Positions, DemandOf, BookingOf;
    SeededIds(requests);
    forall i | 0 <= i < |requests|
      ensures requests[i].id in SeedRows(requests)
      ensures SeedRows(requests)[requests[i].id] == Row(DemandOf(requests[i]), requests[i].status, i + 1, 0, 0, None)
    {
      SeededInOrder(requests, i);
    }
    SeededReservationIds(reservations);
    forall i | LastOfItsId(reservations, i)
      ensures reservations[i].id in SeedBookings(reservations)
      ensures SeedBookings(reservations)[reservations[i].id] == BookingOf(reservations[i])
    {
      SeededLast(reservations, i);
    }
    forall id ensures |LogOf(SeedLog(attempts), id)| == |Positions(attempts, id, |attempts|)| {
      SeededLogLength(attempts, id);
    }
    forall i | 0 <= i < |attempts|
      ensures var log, k := LogOf(SeedLog(attempts), attempts[i].requestId),
                            |Positions(attempts, attempts[i].requestId, i)|;
              k < |log| && log[k] == attempts[i]
    {
      SeededLog(attempts, i);
    }
  }

  class Store {
    const catalog: Catalog
    var requestsById: map<RequestId, ReservationRequest>
    var reservationsById: map<ReservationId, Reservation>
    var attemptsByRequestId: map<RequestId, seq<Attempt>>
    var metadataById: map<RequestId, Metadata>
    var nextSequence: nat

    ghost predicate Valid()
      reads this
    {
      && Numbered(requestsById, metadataById, nextSequence)
      && forall rid | rid in reservationsById :: reservationsById[rid].id == rid
    }

    /** The queue the maps stand for. */
    ghost function View(): State
      reads this
    {
      State(RowsOf(requestsById, metadataById), BookingsOf(reservationsById), attemptsByRequestId)
    }

    constructor (catalog: Catalog)
      ensures Valid() && View() == State(map[], map[], map[])
      ensures this.catalog == catalog && nextSequence == 1
    {
      this.catalog := catalog;
      requestsById, reservationsById, attemptsByRequestId, metadataById := map[], map[], map[], map[];
      nextSequence := 1;
    }

    /** Loads what a store is created with. Requests are numbered in the order given, a repeated id or
        an exhausted sequence stops the loading; of reservations that share an id the last one stays. */
    method Load(requests: seq<ReservationRequest>, reservations: seq<Reservation>, attempts: seq<Attempt>)
      returns (r: Result<(), SaveError>)
      requires Valid() && View() == State(map[], map[], map[]) && nextSequence == 1
      modifies this
      ensures r.Ok? <==> |requests| <= MAX_SAFE_INTEGER
                         && forall i, j | 0 <= i < j < |requests| :: requests[i].id != requests[j].id
      ensures r.Ok? ==>
                && Valid() && nextSequence == |requests| + 1
                && View() == State(SeedRows(requests), SeedBookings(reservations), SeedLog(attempts))
      ensures r.Ok? ==> LoadedAs(View(), requests, reservations, attempts)
    {
      r := LoadRequests(requests);
      if r.Ok? {
        LoadReservations(reservations);
        LoadAttempts(attempts);
        SeedsAreAsGiven(requests, reservations, attempts);
        hide LoadedAs, SeedRows, SeedBookings, SeedLog;
      }
    }

    method LoadRequests(requests: seq<ReservationRequest>) returns (r: Result<(), SaveError>)
      requires Valid() && View() == State(map[], map[], map[]) && nextSequence == 1
      modifies this
      ensures r.Ok? <==> |requests| <= MAX_SAFE_INTEGER
                         && forall i, j | 0 <= i < j < |requests| :: requests[i].id != requests[j].id
      ensures r.Ok? ==>
                Valid() && nextSequence == |requests| + 1 && View() == State(SeedRows(requests), map[], map[])
      ensures r.Ok? ==> unchanged(this`reservationsById) && unchanged(this`attemptsByRequestId)
    {
      hide SeedRows, DemandOf, Numbered;
      assert SeedRows(requests[..0]) == map[] by { NoSeeds(); }
      for i := 0 to |requests|
        invariant Valid() && nextSequence == i + 1 && i <= MAX_SAFE_INTEGER
        invariant View() == State(SeedRows(requests[..i]), map[], map[])
        invariant forall j, k | 0 <= j < k < i :: requests[j].id != requests[k].id
        invariant unchanged(this`reservationsById) && unchanged(this`attemptsByRequestId)
      {
        SeedStep(requests, i);
        SameKeys();
        var saved := SaveReservationRequest(requests[i]);
        if saved.Err? {
          return Err(saved.error);
        }
      }
      assert requests[..|requests|] == requests;
      r := Ok(());
    }

    lemma SameKeys()
      requires Valid()
      ensures View().rows.Keys == requestsById.Keys
    {
    }

    method LoadReservations(reservations: seq<Reservation>)
      requires Valid() && reservationsById == map[]
      modifies this`reservationsById
      ensures Valid() && BookingsOf(reservationsById) == SeedBookings(reservations)
    {
      for i := 0 to |reservations|
        invariant Valid() && BookingsOf(reservationsById) == SeedBookings(reservations[..i])
      {
        assert reservations[..i + 1][..i] == reservations[..i];
        reservationsById := reservationsById[reservations[i].id := reservations[i]];
      }
      assert reservations[..|reservations|] == reservations;
    }

    method LoadAttempts(attempts: seq<Attempt>)
      requires attemptsByRequestId == map[]
      modifies this`attemptsByRequestId
      ensures attemptsByRequestId == SeedLog(attempts)
    {
      for i := 0 to |attempts|
        invariant attemptsByRequestId == SeedLog(attempts[..i])
      {
        assert attempts[..i + 1][..i] == attempts[..i];
        RecordProcessingAttempt(attempts[i]);
      }
      assert attempts[..|attempts|] == attempts;
    }

    /** A new request goes to the back of the queue. A repeated id changes nothing. Running out of
        safe integers is noticed after the request was stored, which leaves it without metadata. */
    method SaveReservationRequest(request: ReservationRequest) returns (r: Result<(), SaveError>)
      requires Valid()
      modifies this
      ensures r == if request.id in old(requestsById) then Err(AlreadyExists(request.id))
                   else if old(nextSequence) > MAX_SAFE_INTEGER then Err(SequenceExhausted) else Ok(())
      ensures request.id in old(requestsById) ==> Valid() && unchanged(this)
      ensures r == Err(SequenceExhausted) ==>
                !Valid() && requestsById == old(requestsById)[request.id := request]
                && unchanged(this`metadataById) && unchanged(this`reservationsById)
                && unchanged(this`attemptsByRequestId)
      ensures r.Ok? ==>
                && Valid() && nextSequence == old(nextSequence) + 1
                && JoinsTheBack(old(View()), request, old(nextSequence), View())
                && requestsById == old(requestsById)[request.id := request]
                && metadataById == old(metadataById)[request.id := Metadata(old(nextSequence), 0, 0, None)]
                && unchanged(this`reservationsById) && unchanged(this`attemptsByRequestId)
    {
      if request.id in requestsById {
        return Err(AlreadyExists(request.id));
      }
      RequestJoins(requestsById, metadataById, nextSequence, reservationsById, attemptsByRequestId, request);
      hide Numbered, RowsOf, BookingsOf, JoinsTheBack;
      requestsById := requestsById[request.id := request];
      if nextSequence > MAX_SAFE_INTEGER {
        StrayIsNotNumbered(requestsById, metadataById, nextSequence, request.id);
        return Err(SequenceExhausted);
      }
      metadataById := metadataById[request.id := Metadata(nextSequence, 0, 0, None)];
      nextSequence := nextSequence + 1;
      r := Ok(());
    }

    method UpdateMetadata(id: RequestId, metadata: Metadata)
      modifies this`metadataById
      ensures metadataById == old(metadataById)[id := metadata]
    {
      metadataById := metadataById[id := metadata];
    }

    method RecordProcessingAttempt(attempt: Attempt)
      modifies this`attemptsByRequestId
      ensures attemptsByRequestId == Append(old(attemptsByRequestId), attempt)
      ensures attempt.requestId in attemptsByRequestId
      ensures attemptsByRequestId[attempt.requestId]
           == (if attempt.requestId in old(attemptsByRequestId)
               then old(attemptsByRequestId)[attempt.requestId] else [])
              + [attempt]
      ensures forall id | id != attempt.requestId ::
                && (id in attemptsByRequestId <==> id in old(attemptsByRequestId))
                && (id in attemptsByRequestId ==> attemptsByRequestId[id] == old(attemptsByRequestId)[id])
    {
      var attempts := if attempt.requestId in attemptsByRequestId then attemptsByRequestId[attempt.requestId] else [];
      attemptsByRequestId := attemptsByRequestId[attempt.requestId := attempts + [attempt]];
    }
  }
}
