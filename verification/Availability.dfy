/** The two availability readers, against each other and against the reservations. */
module Availability {
  import opened Domain
  import opened Queue
  import opened Protocol
  import opened ProtocolInvariant
  import opened Safety
  import opened Drain
  import opened Sums
  import M = InMemoryStore
  import P = Postgres
  import V = PostgresViews

  datatype SeatAvailability = SeatAvailability(seatId: SeatId, available: bool)

  predicate InAuditorium(catalog: Catalog, movieProviderId: ProviderId, auditoriumId: AuditoriumId, seatId: SeatId) {
    && seatId in catalog.seats
    && catalog.seats[seatId].movieProviderId == movieProviderId && catalog.seats[seatId].auditoriumId == auditoriumId
  }

  /** The seats of one auditorium, in the order a scan yields them. */
  function AuditoriumSeats(catalog: Catalog, scan: seq<SeatId>, movieProviderId: ProviderId, auditoriumId: AuditoriumId)
    : seq<SeatId>
  {
    if scan == [] then []
    else
      (if InAuditorium(catalog, movieProviderId, auditoriumId, scan[0]) then [scan[0]] else [])
      + AuditoriumSeats(catalog, scan[1..], movieProviderId, auditoriumId)
  }

  // ---------- in memory ----------

  function Mark(seats: seq<SeatId>, occupied: set<SeatId>): seq<SeatAvailability> {
    if seats == [] then []
    else [SeatAvailability(seats[0], seats[0] !in occupied)] + Mark(seats[1..], occupied)
  }

  function Occupied(reservations: map<ReservationId, Reservation>, movieProviderId: ProviderId,
                    screeningId: ScreeningId)
    : set<SeatId>
  {
    set rid, seatId |
      rid in reservations && reservations[rid].movieProviderId == movieProviderId
      && reservations[rid].screeningId == screeningId && seatId in reservations[rid].seatIds :: seatId
  }

  /** `scan` is the order in which the seat map yields its entries. */
  function ReadInMemory(catalog: Catalog, scan: seq<SeatId>, reservations: map<ReservationId, Reservation>,
                        movieProviderId: ProviderId, screeningId: ScreeningId): Option<seq<SeatAvailability>>
  {
    if screeningId !in catalog.screenings || catalog.screenings[screeningId].movieProviderId != movieProviderId
    then None
    else
      Some(Mark(AuditoriumSeats(catalog, scan, movieProviderId, catalog.screenings[screeningId].auditoriumId),
                Occupied(reservations, movieProviderId, screeningId)))
  }

  // ---------- Postgres ----------

  datatype JoinedRow = JoinedRow(seatId: Option<SeatId>, reservedSeatId: Option<SeatId>)

  /** The rows of reservation_seats that join one seat, in the order they are stored. */
  function Matches(stored: seq<P.ReservationSeatRow>, movieProviderId: ProviderId, screeningId: ScreeningId,
                   seatId: SeatId)
    : seq<JoinedRow>
  {
    if stored == [] then []
    else
      (if stored[0].movieProviderId == movieProviderId && stored[0].screeningId == screeningId
       && stored[0].seatId == seatId
       then [JoinedRow(Some(seatId), Some(seatId))] else [])
      + Matches(stored[1..], movieProviderId, screeningId, seatId)
  }

  function JoinSeats(seats: seq<SeatId>, stored: seq<P.ReservationSeatRow>, movieProviderId: ProviderId,
                     screeningId: ScreeningId): seq<JoinedRow>
  {
    if seats == [] then []
    else
      var matches := Matches(stored, movieProviderId, screeningId, seats[0]);
      (if matches == [] then [JoinedRow(Some(seats[0]), None)] else matches)
      + JoinSeats(seats[1..], stored, movieProviderId, screeningId)
  }

  /** screenings left join seats left join reservation_seats, for one screening of one provider. */
  function LeftJoin(catalog: Catalog, scan: seq<SeatId>, stored: seq<P.ReservationSeatRow>,
                    movieProviderId: ProviderId, screeningId: ScreeningId): seq<JoinedRow>
  {
    if screeningId !in catalog.screenings || catalog.screenings[screeningId].movieProviderId != movieProviderId then []
    else
      var seats := AuditoriumSeats(catalog, scan, movieProviderId, catalog.screenings[screeningId].auditoriumId);
      if seats == [] then [JoinedRow(None, None)] else JoinSeats(seats, stored, movieProviderId, screeningId)
  }

  function FromJoined(rows: seq<JoinedRow>): seq<SeatAvailability> {
    if rows == [] then []
    else
      (if rows[0].seatId.None? then [] else [SeatAvailability(rows[0].seatId.value, rows[0].reservedSeatId.None?)])
      + FromJoined(rows[1..])
  }

  function ReadPostgres(catalog: Catalog, scan: seq<SeatId>, stored: seq<P.ReservationSeatRow>,
                        movieProviderId: ProviderId, screeningId: ScreeningId): Option<seq<SeatAvailability>>
  {
    var rows := LeftJoin(catalog, scan, stored, movieProviderId, screeningId);
    if rows == [] then None else Some(FromJoined(rows))
  }

  // ---------- agreement ----------

  /** `listing` yields each element of a set once. */
  ghost predicate Lists<T(!new)>(listing: seq<T>, elements: set<T>) {
    NoDuplicates(listing) && forall x :: x in listing <==> x in elements
  }

  lemma {:induction false} AuditoriumListing(catalog: Catalog, scan: seq<SeatId>, movieProviderId: ProviderId,
                                             auditoriumId: AuditoriumId)
    requires NoDuplicates(scan)
    ensures var seats := AuditoriumSeats(catalog, scan, movieProviderId, auditoriumId);
            && NoDuplicates(seats)
            && forall id :: id in seats <==> id in scan && InAuditorium(catalog, movieProviderId, auditoriumId, id)
  {
    if scan != [] {
      AuditoriumListing(catalog, scan[1..], movieProviderId, auditoriumId);
      var rest := AuditoriumSeats(catalog, scan[1..], movieProviderId, auditoriumId);
      forall id ensures id in scan <==> id == scan[0] || id in scan[1..] {}
      assert scan[0] !in rest;
    }
  }

  /** One joined row per seat, because (screening, seat) is unique. */
  lemma {:induction false} AtMostOneMatch(stored: seq<P.ReservationSeatRow>, movieProviderId: ProviderId,
                                          screeningId: ScreeningId, seatId: SeatId)
    requires NoDuplicates(stored)
    requires forall a, b | a in stored && b in stored && a.screeningId == b.screeningId && a.seatId == b.seatId ::
               a == b
    ensures var matches := Matches(stored, movieProviderId, screeningId, seatId);
            && (matches == [] || matches == [JoinedRow(Some(seatId), Some(seatId))])
            && (matches == [] <==> forall row | row in stored ::
                  !(row.movieProviderId == movieProviderId && row.screeningId == screeningId && row.seatId == seatId))
  {
    if stored != [] {
      AtMostOneMatch(stored[1..], movieProviderId, screeningId, seatId);
      assert forall row :: row in stored <==> row == stored[0] || row in stored[1..];
      assert stored[0] !in stored[1..];
    }
  }

  lemma {:induction false} JoinIsMark(seats: seq<SeatId>, stored: seq<P.ReservationSeatRow>,
                                      movieProviderId: ProviderId,
                                      screeningId: ScreeningId, occupied: set<SeatId>)
    requires NoDuplicates(stored)
    requires forall a, b | a in stored && b in stored && a.screeningId == b.screeningId && a.seatId == b.seatId ::
               a == b
    requires forall seatId :: seatId in occupied <==>
               exists row | row in stored ::
                 row.movieProviderId == movieProviderId && row.screeningId == screeningId && row.seatId == seatId
    ensures FromJoined(JoinSeats(seats, stored, movieProviderId, screeningId)) == Mark(seats, occupied)
    ensures |JoinSeats(seats, stored, movieProviderId, screeningId)| == |seats|
  {
    if seats != [] {
      AtMostOneMatch(stored, movieProviderId, screeningId, seats[0]);
      JoinIsMark(seats[1..], stored, movieProviderId, screeningId, occupied);
      var joined := JoinSeats(seats, stored, movieProviderId, screeningId);
      assert joined[1..] == JoinSeats(seats[1..], stored, movieProviderId, screeningId);
    }
  }

  /** A reservation of a known screening is its provider's. */
  ghost predicate ProvidersMatch(catalog: Catalog, reservations: map<ReservationId, Reservation>) {
    forall rid | rid in reservations && reservations[rid].screeningId in catalog.screenings ::
      catalog.screenings[reservations[rid].screeningId].movieProviderId == reservations[rid].movieProviderId
  }

  lemma OccupiedIsSold(catalog: Catalog, reservations: map<ReservationId, Reservation>, screeningId: ScreeningId)
    requires screeningId in catalog.screenings
    requires ProvidersMatch(catalog, reservations)
    ensures Occupied(reservations, catalog.screenings[screeningId].movieProviderId, screeningId)
         == SoldIn(M.BookingsOf(reservations), screeningId)
  {
    var provider := catalog.screenings[screeningId].movieProviderId;
    var bookings := M.BookingsOf(reservations);
    forall seatId ensures seatId in Occupied(reservations, provider, screeningId)
        <==> seatId in SoldIn(bookings, screeningId)
    {
      if seatId in SoldIn(bookings, screeningId) {
        var rid :| rid in bookings && bookings[rid].demand.screening == screeningId
            && seatId in bookings[rid].demand.seats;
        assert rid in reservations && seatId in reservations[rid].seatIds;
      }
      if seatId in Occupied(reservations, provider, screeningId) {
        var rid :| rid in reservations && reservations[rid].movieProviderId == provider
                   && reservations[rid].screeningId == screeningId && seatId in reservations[rid].seatIds;
        assert rid in bookings && seatId in bookings[rid].demand.seats;
      }
    }
  }

  lemma StoredIsSold(catalog: Catalog, db: P.Db, stored: seq<P.ReservationSeatRow>, screeningId: ScreeningId,
                     seatId: SeatId)
    requires P.SchemaOk(catalog, db) && Lists(stored, db.reservationSeats) && screeningId in catalog.screenings
    ensures seatId in SoldIn(P.View(db).bookings, screeningId) <==>
            exists row | row in stored ::
              row.movieProviderId == catalog.screenings[screeningId].movieProviderId
              && row.screeningId == screeningId && row.seatId == seatId
  {
    var bookings := P.View(db).bookings;
    if seatId in SoldIn(bookings, screeningId) {
      var rid :| rid in bookings && bookings[rid].demand.screening == screeningId
          && seatId in bookings[rid].demand.seats;
      V.SeatRowIsBookedSeat(catalog, db, screeningId, seatId, rid);
    }
    if row :| row in stored && row.movieProviderId == catalog.screenings[screeningId].movieProviderId
              && row.screeningId == screeningId && row.seatId == seatId {
      V.SeatRowIsBookedSeat(catalog, db, screeningId, seatId, row.reservationId);
    }
  }

  /** On the same seats in the same order and the same reservations the two readers return the same
      list, or both nothing. */
  lemma ReadersAgreeInOrder(catalog: Catalog, scan: seq<SeatId>, reservations: map<ReservationId, Reservation>,
                     db: P.Db, stored: seq<P.ReservationSeatRow>, movieProviderId: ProviderId, screeningId: ScreeningId)
    requires P.SchemaOk(catalog, db) && Lists(stored, db.reservationSeats)
    requires M.BookingsOf(reservations) == P.View(db).bookings
    ensures ReadInMemory(catalog, scan, reservations, movieProviderId, screeningId)
         == ReadPostgres(catalog, scan, stored, movieProviderId, screeningId)
  {
    if screeningId in catalog.screenings && catalog.screenings[screeningId].movieProviderId == movieProviderId {
      SchemaMatchesProviders(catalog, reservations, db);
      OccupiedIsSold(catalog, reservations, screeningId);
      forall seatId ensures seatId in SoldIn(P.View(db).bookings, screeningId) <==>
          exists row | row in stored ::
            row.movieProviderId == movieProviderId && row.screeningId == screeningId && row.seatId == seatId
      {
        StoredIsSold(catalog, db, stored, screeningId, seatId);
      }
      var seats := AuditoriumSeats(catalog, scan, movieProviderId, catalog.screenings[screeningId].auditoriumId);
      hide P.SchemaOk;
      assert forall a, b | a in stored && b in stored && a.screeningId == b.screeningId && a.seatId == b.seatId ::
          a == b by {
        SeatRowsUnique(catalog, db);
      }
      JoinIsMark(seats, stored, movieProviderId, screeningId, SoldIn(P.View(db).bookings, screeningId));
      if seats == [] {
        assert FromJoined([JoinedRow(None, None)]) == [];
      }
    }
  }

  lemma SchemaMatchesProviders(catalog: Catalog, reservations: map<ReservationId, Reservation>, db: P.Db)
    requires P.SchemaOk(catalog, db) && M.BookingsOf(reservations) == P.View(db).bookings
    ensures ProvidersMatch(catalog, reservations)
  {
    forall rid | rid in reservations && reservations[rid].screeningId in catalog.screenings
      ensures catalog.screenings[reservations[rid].screeningId].movieProviderId == reservations[rid].movieProviderId
    {
      assert rid in M.BookingsOf(reservations) && rid in P.View(db).bookings;
      assert P.View(db).bookings[rid].demand == M.BookingsOf(reservations)[rid].demand;
    }
  }

  lemma SeatRowsUnique(catalog: Catalog, db: P.Db)
    requires P.SchemaOk(catalog, db)
    ensures forall a, b | a in db.reservationSeats && b in db.reservationSeats
                          && a.screeningId == b.screeningId && a.seatId == b.seatId :: a == b
  {
  }

  lemma {:induction false} MarkedEntries(seats: seq<SeatId>, occupied: set<SeatId>)
    requires NoDuplicates(seats)
    ensures |Mark(seats, occupied)| == |seats| && NoDuplicates(Mark(seats, occupied))
    ensures forall e :: e in Mark(seats, occupied) <==> e.seatId in seats && e.available == (e.seatId !in occupied)
  {
    if seats != [] {
      MarkedEntries(seats[1..], occupied);
      assert forall id :: id in seats <==> id == seats[0] || id in seats[1..];
      assert seats[0] !in seats[1..];
    }
  }

  /** A reading has one entry per seat of the auditorium, unavailable exactly when a reservation of
      the screening holds it. */
  lemma ReadingIsExact(catalog: Catalog, scan: seq<SeatId>, reservations: map<ReservationId, Reservation>,
                       movieProviderId: ProviderId, screeningId: ScreeningId)
    requires Lists(scan, catalog.seats.Keys)
    requires ProvidersMatch(catalog, reservations)
    ensures var reading := ReadInMemory(catalog, scan, reservations, movieProviderId, screeningId);
            && (reading.Some? <==> screeningId in catalog.screenings
                                   && catalog.screenings[screeningId].movieProviderId == movieProviderId)
            && (reading.Some? ==>
                  && NoDuplicates(reading.value)
                  && forall e :: e in reading.value <==>
                       && e.seatId in SeatsOf(catalog, screeningId)
                       && e.available == (e.seatId !in SoldIn(M.BookingsOf(reservations), screeningId)))
  {
    if screeningId in catalog.screenings && catalog.screenings[screeningId].movieProviderId == movieProviderId {
      AuditoriumListing(catalog, scan, movieProviderId, catalog.screenings[screeningId].auditoriumId);
      OccupiedIsSold(catalog, reservations, screeningId);
      MarkedEntries(AuditoriumSeats(catalog, scan, movieProviderId, catalog.screenings[screeningId].auditoriumId),
                    Occupied(reservations, movieProviderId, screeningId));
    }
  }

  /** The seat map and the unordered query may yield the seats in any two orders: on the same seats and
      reservations both readers return the same entries, each once, or both nothing. */
  lemma ReadersAgree(catalog: Catalog, scan: seq<SeatId>, rowOrder: seq<SeatId>,
                     reservations: map<ReservationId, Reservation>,
                     db: P.Db, stored: seq<P.ReservationSeatRow>, movieProviderId: ProviderId, screeningId: ScreeningId)
    requires Lists(scan, catalog.seats.Keys) && Lists(rowOrder, catalog.seats.Keys)
    requires P.SchemaOk(catalog, db) && Lists(stored, db.reservationSeats)
    requires M.BookingsOf(reservations) == P.View(db).bookings
    ensures var memory := ReadInMemory(catalog, scan, reservations, movieProviderId, screeningId);
            var postgres := ReadPostgres(catalog, rowOrder, stored, movieProviderId, screeningId);
            && (memory.Some? <==> postgres.Some?)
            && (memory.Some? ==>
                  && NoDuplicates(memory.value) && NoDuplicates(postgres.value)
                  && forall e :: e in memory.value <==> e in postgres.value)
  {
    hide P.SchemaOk, P.View, SeatsOf, SoldIn;
    SchemaMatchesProviders(catalog, reservations, db);
    ReadersAgreeInOrder(catalog, rowOrder, reservations, db, stored, movieProviderId, screeningId);
    ReadingIsExact(catalog, scan, reservations, movieProviderId, screeningId);
    ReadingIsExact(catalog, rowOrder, reservations, movieProviderId, screeningId);
    hide ReadInMemory, ReadPostgres;
  }

  /** The conflict lookup comes back empty exactly when every requested seat reads as available. */
  lemma NoConflictIffAvailable(catalog: Catalog, scan: seq<SeatId>, reservations: map<ReservationId, Reservation>,
                               q: State, demand: Demand)
    requires Lists(scan, catalog.seats.Keys) && WellPlaced(catalog, demand)
    requires q.bookings == M.BookingsOf(reservations)
    requires ProvidersMatch(catalog, reservations)
    ensures var reading := ReadInMemory(catalog, scan, reservations, demand.provider, demand.screening);
            && reading.Some?
            && (!HasConflict(q, demand) <==>
                  forall seatId | seatId in demand.seats :: SeatAvailability(seatId, true) in reading.value)
  {
    ReadingIsExact(catalog, scan, reservations, demand.provider, demand.screening);
    if HasConflict(q, demand) {
      var rid :| rid in q.bookings && Conflicts(q.bookings[rid], demand);
      var seatId :| seatId in q.bookings[rid].demand.seats * demand.seats;
      assert seatId in demand.seats && seatId in SoldIn(q.bookings, demand.screening);
    } else {
      forall seatId | seatId in demand.seats ensures seatId !in SoldIn(q.bookings, demand.screening) {
        forall rid | rid in q.bookings && q.bookings[rid].demand.screening == demand.screening
          ensures seatId !in q.bookings[rid].demand.seats
        {
          assert !Conflicts(q.bookings[rid], demand);
          assert seatId !in q.bookings[rid].demand.seats * demand.seats;
        }
      }
    }
  }

  /** The drain counts sold seats over all screenings at once. */
  lemma SoldInIsSoldSeats(q: State, screeningId: ScreeningId, seatId: SeatId)
    ensures seatId in SoldIn(q.bookings, screeningId) <==> (screeningId, seatId) in SoldSeats(q)
  {
    if seatId in SoldIn(q.bookings, screeningId) {
      var rid :| rid in q.bookings && q.bookings[rid].demand.screening == screeningId
                 && seatId in q.bookings[rid].demand.seats;
      assert (q.bookings[rid].demand.screening, seatId) in SoldSeats(q);
    }
    if (screeningId, seatId) in SoldSeats(q) {
      var rid :| rid in q.bookings && seatId in q.bookings[rid].demand.seats
                 && q.bookings[rid].demand.screening == screeningId;
    }
  }

  // ---------- occupancy ----------

  /** How many seats each reservation of a screening holds. */
  ghost function SeatCounts(bookings: map<ReservationId, Booking>, screeningId: ScreeningId): map<ReservationId, int> {
    map rid | rid in bookings && bookings[rid].demand.screening == screeningId :: |bookings[rid].demand.seats|
  }

  lemma {:induction false} SeatsAddUp(bookings: map<ReservationId, Booking>, screeningId: ScreeningId)
    requires DisjointBookings(bookings)
    ensures |SoldIn(bookings, screeningId)| == Sum(SeatCounts(bookings, screeningId))
    decreases |bookings|
  {
    if bookings == map[] {
      assert SeatCounts(bookings, screeningId) == map[];
    } else {
      var rid :| rid in bookings;
      var rest := bookings - {rid};
      assert DisjointBookings(rest);
      SeatsAddUp(rest, screeningId);
      SoldGrows(bookings, rid, screeningId);
      CountsGrow(bookings, rid, screeningId);
      if bookings[rid].demand.screening == screeningId {
        NotYetSold(bookings, rid, screeningId);
        hide SoldIn, SeatCounts, DisjointBookings;
        DisjointSizes(SoldIn(rest, screeningId), bookings[rid].demand.seats);
      }
    }
  }

  lemma DisjointSizes(a: set<SeatId>, b: set<SeatId>)
    requires forall x | x in b :: x !in a
    ensures |a + b| == |a| + |b|
  {
    assert a !! b;
  }

  lemma CountsGrow(bookings: map<ReservationId, Booking>, rid: ReservationId, screeningId: ScreeningId)
    requires rid in bookings
    ensures Sum(SeatCounts(bookings, screeningId))
         == Sum(SeatCounts(bookings - {rid}, screeningId))
            + if bookings[rid].demand.screening == screeningId then |bookings[rid].demand.seats| else 0
  {
    var rest := bookings - {rid};
    if bookings[rid].demand.screening == screeningId {
      SumUpdate(SeatCounts(rest, screeningId), rid, |bookings[rid].demand.seats|);
      assert SeatCounts(bookings, screeningId)
          == SeatCounts(rest, screeningId)[rid := |bookings[rid].demand.seats|];
    } else {
      assert SeatCounts(bookings, screeningId) == SeatCounts(rest, screeningId);
    }
  }

  lemma NotYetSold(bookings: map<ReservationId, Booking>, rid: ReservationId, screeningId: ScreeningId)
    requires DisjointBookings(bookings) && rid in bookings && bookings[rid].demand.screening == screeningId
    ensures forall seatId | seatId in bookings[rid].demand.seats :: seatId !in SoldIn(bookings - {rid}, screeningId)
  {
    var rest := bookings - {rid};
    forall seatId, other |
      seatId in bookings[rid].demand.seats && other in rest && rest[other].demand.screening == screeningId
      ensures seatId !in rest[other].demand.seats
    {
      assert !Conflicts(bookings[other], bookings[rid].demand);
      assert seatId !in bookings[other].demand.seats * bookings[rid].demand.seats;
    }
  }

  lemma SoldGrows(bookings: map<ReservationId, Booking>, rid: ReservationId, screeningId: ScreeningId)
    requires rid in bookings
    ensures SoldIn(bookings, screeningId)
         == SoldIn(bookings - {rid}, screeningId)
            + if bookings[rid].demand.screening == screeningId then bookings[rid].demand.seats else {}
  {
    var rest := bookings - {rid};
    forall seatId | seatId in SoldIn(bookings, screeningId)
      ensures seatId in SoldIn(rest, screeningId)
              || (bookings[rid].demand.screening == screeningId && seatId in bookings[rid].demand.seats)
    {
      var other :| other in bookings && bookings[other].demand.screening == screeningId
                   && seatId in bookings[other].demand.seats;
      if other != rid { assert other in rest && rest[other] == bookings[other]; }
    }
    forall seatId | seatId in SoldIn(rest, screeningId) ensures seatId in SoldIn(bookings, screeningId) {
      var other :| other in rest && rest[other].demand.screening == screeningId && seatId in rest[other].demand.seats;
      assert other in bookings;
    }
  }

  lemma SoldIsConserved(cfg: Config, s: Sys, screeningId: ScreeningId)
    requires ValidConfig(cfg) && Reachable(cfg, s)
    ensures |SoldIn(s.q.bookings, screeningId)| == Sum(SeatCounts(s.q.bookings, screeningId))
    ensures SoldIn(s.q.bookings, screeningId) <= SeatsOf(cfg.catalog, screeningId)
  {
    ReachableInv(cfg, s);
    hide Reachable;
    SeatsAddUp(s.q.bookings, screeningId);
    forall seatId | seatId in SoldIn(s.q.bookings, screeningId) ensures seatId in SeatsOf(cfg.catalog, screeningId) {
      var rid :| rid in s.q.bookings && s.q.bookings[rid].demand.screening == screeningId
                 && seatId in s.q.bookings[rid].demand.seats;
      assert BookingOk(s.q, rid) && RowOk(cfg, s, s.q.bookings[rid].requestId);
    }
  }

  lemma SoldNeverShrinks(cfg: Config, s: Sys, s': Sys, screeningId: ScreeningId)
    requires Leads(cfg, s, s')
    ensures SoldIn(s.q.bookings, screeningId) <= SoldIn(s'.q.bookings, screeningId)
  {
    HistoryIsKept(cfg, s, s');
    hide Leads;
    forall seatId | seatId in SoldIn(s.q.bookings, screeningId) ensures seatId in SoldIn(s'.q.bookings, screeningId) {
      var rid :| rid in s.q.bookings && s.q.bookings[rid].demand.screening == screeningId
                 && seatId in s.q.bookings[rid].demand.seats;
      assert rid in s'.q.bookings && s'.q.bookings[rid] == s.q.bookings[rid];
    }
  }

  // ---------- what the reader returns ----------

  function Unavailable(reading: seq<SeatAvailability>): nat {
    if reading == [] then 0 else (if reading[0].available then 0 else 1) + Unavailable(reading[1..])
  }

  lemma {:induction false} MarkCounts(seats: seq<SeatId>, occupied: set<SeatId>)
    requires NoDuplicates(seats)
    ensures Unavailable(Mark(seats, occupied)) == |SeatSet(seats) * occupied|
  {
    if seats == [] {
      assert SeatSet(seats) * occupied == {};
    } else {
      MarkCounts(seats[1..], occupied);
      assert forall id :: id in seats <==> id == seats[0] || id in seats[1..];
      assert seats[0] !in seats[1..];
      assert Mark(seats, occupied)[1..] == Mark(seats[1..], occupied);
      var rest := SeatSet(seats[1..]) * occupied;
      assert SeatSet(seats) * occupied == if seats[0] in occupied then rest + {seats[0]} else rest;
    }
  }

  lemma ReachableProvidersMatch(cfg: Config, s: Sys, reservations: map<ReservationId, Reservation>)
    requires ValidConfig(cfg) && Reachable(cfg, s) && s.q.bookings == M.BookingsOf(reservations)
    ensures ProvidersMatch(cfg.catalog, reservations)
  {
    forall rid | rid in reservations ensures WellPlaced(cfg.catalog, M.BookingOf(reservations[rid]).demand) {
      ReachableBooking(cfg, s, rid);
      ReachableRow(cfg, s, s.q.bookings[rid].requestId);
    }
  }

  /** In every reachable state the reader marks as many seats unavailable as the reservations of the
      screening hold together, out of all seats of its auditorium. */
  lemma OccupancyIsConserved(cfg: Config, s: Sys, scan: seq<SeatId>, reservations: map<ReservationId, Reservation>,
                             movieProviderId: ProviderId, screeningId: ScreeningId)
    requires ValidConfig(cfg) && Reachable(cfg, s)
    requires s.q.bookings == M.BookingsOf(reservations) && Lists(scan, cfg.catalog.seats.Keys)
    ensures var reading := ReadInMemory(cfg.catalog, scan, reservations, movieProviderId, screeningId);
            reading.Some? ==>
              && Unavailable(reading.value) == Sum(SeatCounts(s.q.bookings, screeningId))
              && |reading.value| == |SeatsOf(cfg.catalog, screeningId)|
              && Unavailable(reading.value) <= |reading.value|
  {
    if ReadInMemory(cfg.catalog, scan, reservations, movieProviderId, screeningId).Some? {
      hide Reachable;
      ReachableProvidersMatch(cfg, s, reservations);
      OccupiedIsSold(cfg.catalog, reservations, screeningId);
      SoldIsConserved(cfg, s, screeningId);
      ReadingCounts(cfg.catalog, scan, movieProviderId, screeningId, SoldIn(s.q.bookings, screeningId));
    }
  }

  lemma ReadingCounts(catalog: Catalog, scan: seq<SeatId>, movieProviderId: ProviderId, screeningId: ScreeningId,
                      sold: set<SeatId>)
    requires screeningId in catalog.screenings && catalog.screenings[screeningId].movieProviderId == movieProviderId
    requires Lists(scan, catalog.seats.Keys) && sold <= SeatsOf(catalog, screeningId)
    ensures var seats := AuditoriumSeats(catalog, scan, movieProviderId, catalog.screenings[screeningId].auditoriumId);
            && Unavailable(Mark(seats, sold)) == |sold|
            && |Mark(seats, sold)| == |SeatsOf(catalog, screeningId)|
            && |sold| <= |Mark(seats, sold)|
  {
    var seats := AuditoriumSeats(catalog, scan, movieProviderId, catalog.screenings[screeningId].auditoriumId);
    AuditoriumListing(catalog, scan, movieProviderId, catalog.screenings[screeningId].auditoriumId);
    MarkCounts(seats, sold);
    MarkedEntries(seats, sold);
    SizeTestFindsDuplicates(seats);
    assert SeatSet(seats) == SeatsOf(catalog, screeningId);
    assert SeatSet(seats) * sold == sold;
    SubsetIsSmaller(sold, SeatsOf(catalog, screeningId));
  }

  lemma SubsetIsSmaller(a: set<SeatId>, b: set<SeatId>)
    requires a <= b
    ensures |a| <= |b|
  {
    assert b == a + (b - a);
  }

  /** A seat that reads as unavailable does so forever. */
  lemma OccupancyNeverDecreases(cfg: Config, s: Sys, s': Sys, scan: seq<SeatId>, scan': seq<SeatId>,
                                reservations: map<ReservationId, Reservation>,
                                reservations': map<ReservationId, Reservation>,
                                movieProviderId: ProviderId, screeningId: ScreeningId)
    requires ValidConfig(cfg) && Leads(cfg, s, s')
    requires s.q.bookings == M.BookingsOf(reservations) && s'.q.bookings == M.BookingsOf(reservations')
    requires Lists(scan, cfg.catalog.seats.Keys) && Lists(scan', cfg.catalog.seats.Keys)
    ensures var earlier := ReadInMemory(cfg.catalog, scan, reservations, movieProviderId, screeningId);
            var later := ReadInMemory(cfg.catalog, scan', reservations', movieProviderId, screeningId);
            && (earlier.Some? <==> later.Some?)
            && (earlier.Some? ==> forall e | e in earlier.value && !e.available :: e in later.value)
  {
    LeadsReaches(cfg, s, s');
    SoldNeverShrinks(cfg, s, s', screeningId);
    hide Leads, Reachable, SoldIn, SeatsOf;
    ReachableProvidersMatch(cfg, s, reservations);
    ReachableProvidersMatch(cfg, s', reservations');
    ReadingIsExact(cfg.catalog, scan, reservations, movieProviderId, screeningId);
    ReadingIsExact(cfg.catalog, scan', reservations', movieProviderId, screeningId);
    hide ReadInMemory;
  }

  /** After a drain the reader marks unavailable exactly the seats sold before and those the plan takes. */
  lemma DrainShowsInReading(cfg: Config, first: State, last: State, order: seq<RequestId>, plan: seq<Status>,
                            scan: seq<SeatId>, reservations: map<ReservationId, Reservation>,
                            movieProviderId: ProviderId, screeningId: ScreeningId)
    requires |order| == |plan| && (forall id | id in order :: id in first.rows)
    requires DrainedAs(cfg, first, last, order, plan)
    requires last.bookings == M.BookingsOf(reservations) && ProvidersMatch(cfg.catalog, reservations)
    requires Lists(scan, cfg.catalog.seats.Keys)
    ensures var reading := ReadInMemory(cfg.catalog, scan, reservations, movieProviderId, screeningId);
            reading.Some? ==>
              forall e | e in reading.value ::
                !e.available <==> (screeningId, e.seatId) in SoldSeats(first) + Taken(Items(first, order), plan)
  {
    ReadingIsExact(cfg.catalog, scan, reservations, movieProviderId, screeningId);
    forall seatId: SeatId
      ensures seatId in SoldIn(last.bookings, screeningId) <==> (screeningId, seatId) in SoldSeats(last)
    {
      SoldInIsSoldSeats(last, screeningId, seatId);
    }
    hide ReadInMemory, SoldSeats, SoldIn, Taken, Items, EndedAs;
  }
}
