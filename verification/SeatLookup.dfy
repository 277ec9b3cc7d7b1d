/** The batched seat lookup, against the single one. */
module SeatLookup {
  import opened Domain

  /** Row by row, then by number. */
  predicate Before(a: Seat, b: Seat) {
    a.row < b.row || (a.row == b.row && a.number < b.number)
  }

  /** The seats table's unique (auditorium, row, number). */
  ghost predicate PositionsUnique(catalog: Catalog) {
    forall a, b | a in catalog.seats && b in catalog.seats && a != b
                  && catalog.seats[a].auditoriumId == catalog.seats[b].auditoriumId ::
      Before(catalog.seats[a], catalog.seats[b]) || Before(catalog.seats[b], catalog.seats[a])
  }

  /** A result of "the provider's seats of these auditoriums, ordered by row and number". */
  ghost predicate SeatQuery(catalog: Catalog, movieProviderId: ProviderId, auditoriums: set<AuditoriumId>,
                            seats: seq<SeatId>)
  {
    && NoDuplicates(seats)
    && (forall id :: id in seats <==>
          && id in catalog.seats && catalog.seats[id].movieProviderId == movieProviderId
          && catalog.seats[id].auditoriumId in auditoriums)
    && forall i, j | 0 <= i < j < |seats| :: !Before(catalog.seats[seats[j]], catalog.seats[seats[i]])
  }

  predicate Owned(catalog: Catalog, movieProviderId: ProviderId, id: ScreeningId) {
    id in catalog.screenings && catalog.screenings[id].movieProviderId == movieProviderId
  }

  /** A result of the single lookup. */
  ghost predicate SingleLookup(catalog: Catalog, movieProviderId: ProviderId, id: ScreeningId, seats: seq<SeatId>) {
    if Owned(catalog, movieProviderId, id)
    then SeatQuery(catalog, movieProviderId, {catalog.screenings[id].auditoriumId}, seats)
    else seats == []
  }

  /** Positions being unique, the order leaves no choice: the single lookup has one result. */
  lemma {:induction false} SingleLookupIsUnique(catalog: Catalog, movieProviderId: ProviderId, id: ScreeningId,
                                                a: seq<SeatId>, b: seq<SeatId>)
    requires PositionsUnique(catalog)
    requires SingleLookup(catalog, movieProviderId, id, a) && SingleLookup(catalog, movieProviderId, id, b)
    ensures a == b
  {
    if Owned(catalog, movieProviderId, id) {
      SameElements(catalog, a, b);
    }
  }

  ghost predicate InOrder(catalog: Catalog, seats: seq<SeatId>) {
    && (forall id | id in seats :: id in catalog.seats)
    && forall i, j | 0 <= i < j < |seats| :: Before(catalog.seats[seats[i]], catalog.seats[seats[j]])
  }

  lemma SameElements(catalog: Catalog, a: seq<SeatId>, b: seq<SeatId>)
    requires PositionsUnique(catalog)
    requires NoDuplicates(a) && NoDuplicates(b) && forall id :: id in a <==> id in b
    requires forall id | id in a :: id in catalog.seats
    requires forall x, y | x in a && y in a :: catalog.seats[x].auditoriumId == catalog.seats[y].auditoriumId
    requires forall i, j | 0 <= i < j < |a| :: !Before(catalog.seats[a[j]], catalog.seats[a[i]])
    requires forall i, j | 0 <= i < j < |b| :: !Before(catalog.seats[b[j]], catalog.seats[b[i]])
    ensures a == b
  {
    forall i, j | 0 <= i < j < |a| ensures Before(catalog.seats[a[i]], catalog.seats[a[j]]) {
      assert a[i] in a && a[j] in a;
    }
    forall i, j | 0 <= i < j < |b| ensures Before(catalog.seats[b[i]], catalog.seats[b[j]]) {
      assert b[i] in b && b[j] in b && b[i] in a && b[j] in a;
    }
    SortedListsEqual(catalog, a, b);
  }

  lemma {:induction false} SortedListsEqual(catalog: Catalog, a: seq<SeatId>, b: seq<SeatId>)
    requires InOrder(catalog, a) && InOrder(catalog, b) && forall id :: id in a <==> id in b
    ensures a == b
  {
    assert a != [] ==> a[0] in a;
    assert b != [] ==> b[0] in b;
    if a != [] {
      FirstEqual(catalog, a, b);
      forall id ensures id in a[1..] <==> id in b[1..] {
        TailElements(catalog, a, id);
        TailElements(catalog, b, id);
      }
      SortedListsEqual(catalog, a[1..], b[1..]);
    }
  }

  lemma FirstEqual(catalog: Catalog, a: seq<SeatId>, b: seq<SeatId>)
    requires InOrder(catalog, a) && InOrder(catalog, b) && (forall id :: id in a <==> id in b) && a != [] && b != []
    ensures a[0] == b[0]
  {
    assert a[0] in b && b[0] in a;
    var i :| 0 <= i < |b| && b[i] == a[0];
    var j :| 0 <= j < |a| && a[j] == b[0];
    assert i > 0 ==> Before(catalog.seats[b[0]], catalog.seats[a[0]]);
    assert j > 0 ==> Before(catalog.seats[a[0]], catalog.seats[b[0]]);
  }

  lemma TailElements(catalog: Catalog, a: seq<SeatId>, id: SeatId)
    requires InOrder(catalog, a) && a != []
    ensures id in a[1..] <==> id in a && id != a[0]
  {
    if id in a[1..] {
      var i :| 0 <= i < |a[1..]| && a[1..][i] == id;
      assert a[i + 1] == id && Before(catalog.seats[a[0]], catalog.seats[a[i + 1]]);
    }
    if id in a && id != a[0] {
      var i :| 0 <= i < |a| && a[i] == id;
      assert a[1..][i - 1] == id;
    }
  }

  // ---------- the batch ----------

  function SeatsIn(catalog: Catalog, seats: seq<SeatId>, auditoriumId: AuditoriumId): seq<SeatId>
    requires forall id | id in seats :: id in catalog.seats
  {
    if seats == [] then []
    else
      var last := seats[|seats| - 1];
      SeatsIn(catalog, seats[..|seats| - 1], auditoriumId)
      + if catalog.seats[last].auditoriumId == auditoriumId then [last] else []
  }

  lemma {:induction false} GroupKeepsOrder(catalog: Catalog, seats: seq<SeatId>, auditoriumId: AuditoriumId)
    requires NoDuplicates(seats) && forall id | id in seats :: id in catalog.seats
    requires forall i, j | 0 <= i < j < |seats| :: !Before(catalog.seats[seats[j]], catalog.seats[seats[i]])
    ensures var group := SeatsIn(catalog, seats, auditoriumId);
            && NoDuplicates(group)
            && (forall id :: id in group <==> id in seats && catalog.seats[id].auditoriumId == auditoriumId)
            && forall i, j | 0 <= i < j < |group| :: !Before(catalog.seats[group[j]], catalog.seats[group[i]])
  {
    if seats != [] {
      var front, last := seats[..|seats| - 1], seats[|seats| - 1];
      GroupKeepsOrder(catalog, front, auditoriumId);
      assert forall id :: id in seats <==> id in front || id == last;
      forall id | id in front ensures id != last && !Before(catalog.seats[last], catalog.seats[id]) {
        var i :| 0 <= i < |front| && front[i] == id;
        assert seats[i] == id;
      }
      var group := SeatsIn(catalog, front, auditoriumId);
      assert forall i | 0 <= i < |group| :: group[i] in group && group[i] in front;
    }
  }

  lemma KnownSeats(catalog: Catalog, movieProviderId: ProviderId, auditoriums: set<AuditoriumId>, seats: seq<SeatId>)
    requires SeatQuery(catalog, movieProviderId, auditoriums, seats)
    ensures forall id | id in seats :: id in catalog.seats
  {
  }

  /** One group of the batch is what the single lookup of that screening returns. */
  lemma GroupIsSingleLookup(catalog: Catalog, movieProviderId: ProviderId, auditoriums: set<AuditoriumId>,
                            seats: seq<SeatId>, id: ScreeningId)
    requires SeatQuery(catalog, movieProviderId, auditoriums, seats)
    requires Owned(catalog, movieProviderId, id) ==> catalog.screenings[id].auditoriumId in auditoriums
    ensures SingleLookup(catalog, movieProviderId, id,
                         if Owned(catalog, movieProviderId, id)
                         then SeatsIn(catalog, seats, catalog.screenings[id].auditoriumId) else [])
  {
    if Owned(catalog, movieProviderId, id) {
      GroupKeepsOrder(catalog, seats, catalog.screenings[id].auditoriumId);
    }
  }

  /** The first loop: seats by auditorium, in query order. */
  method GroupByAuditorium(catalog: Catalog, seats: seq<SeatId>)
    returns (seatsByAuditoriumId: map<AuditoriumId, seq<SeatId>>)
    requires forall id | id in seats :: id in catalog.seats
    ensures forall a ::
              (if a in seatsByAuditoriumId then seatsByAuditoriumId[a] else []) == SeatsIn(catalog, seats, a)
  {
    seatsByAuditoriumId := map[];
    for i := 0 to |seats|
      invariant forall a ::
                  (if a in seatsByAuditoriumId then seatsByAuditoriumId[a] else [])
                  == SeatsIn(catalog, seats[..i], a)
    {
      var seatId := seats[i];
      assert seatId in seats && seats[..i + 1][..i] == seats[..i];
      var auditoriumId := catalog.seats[seatId].auditoriumId;
      var auditoriumSeats := if auditoriumId in seatsByAuditoriumId then seatsByAuditoriumId[auditoriumId] else [];
      seatsByAuditoriumId := seatsByAuditoriumId[auditoriumId := auditoriumSeats + [seatId]];
    }
    assert seats[..|seats|] == seats;
  }

  /** The two grouping loops. `screenings` and `seats` are what the two queries returned. For every
      screening asked for, with the empty list as default, the map holds a single-lookup result. */
  method FindSeatsByScreeningIds(catalog: Catalog, movieProviderId: ProviderId, screeningIds: seq<ScreeningId>,
                                 screenings: seq<ScreeningId>, seats: seq<SeatId>)
    returns (seatsByScreeningId: map<ScreeningId, seq<SeatId>>)
    requires forall id :: id in screenings <==> id in screeningIds && Owned(catalog, movieProviderId, id)
    requires SeatQuery(catalog, movieProviderId,
                       set id | id in screenings && id in catalog.screenings :: catalog.screenings[id].auditoriumId,
                       seats)
    ensures forall id | id in screeningIds ::
              SingleLookup(catalog, movieProviderId, id,
                           if id in seatsByScreeningId then seatsByScreeningId[id] else [])
    ensures seatsByScreeningId.Keys == set id | id in screeningIds && Owned(catalog, movieProviderId, id)
  {
    ghost var auditoriums := set id | id in screenings && id in catalog.screenings ::
        catalog.screenings[id].auditoriumId;
    KnownSeats(catalog, movieProviderId, auditoriums, seats);
    hide SeatQuery, SingleLookup;
    seatsByScreeningId := map[];
    if |screeningIds| == 0 {
      return;
    }
    var seatsByAuditoriumId := GroupByAuditorium(catalog, seats);
    for i := 0 to |screenings|
      invariant forall id :: id in seatsByScreeningId <==> id in screenings[..i]
      invariant forall id | id in seatsByScreeningId ::
                  id in catalog.screenings
                  && seatsByScreeningId[id] == SeatsIn(catalog, seats, catalog.screenings[id].auditoriumId)
    {
      var id := screenings[i];
      assert id in screenings;
      var auditoriumId := catalog.screenings[id].auditoriumId;
      seatsByScreeningId := seatsByScreeningId[
        id := if auditoriumId in seatsByAuditoriumId then seatsByAuditoriumId[auditoriumId] else []];
    }
    assert screenings[..|screenings|] == screenings;
    forall id | id in screeningIds
      ensures SingleLookup(catalog, movieProviderId, id,
                           if id in seatsByScreeningId then seatsByScreeningId[id] else [])
    {
      GroupIsSingleLookup(catalog, movieProviderId, auditoriums, seats, id);
    }
  }
}
