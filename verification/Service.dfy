/** The use case that puts a request into the queue. */
module Service {
  import opened Domain
  import opened Queue
  import opened Protocol
  import opened InMemoryStore

  datatype RequestError =
    | ScreeningNotFound
    | SeatNotAvailable(seatId: SeatId)
    | Invalid(error: CreateError)
    | NotSaved(cause: SaveError)

  /** The seats among `seatIds` that the screening's auditorium has. */
  function FindSeatsByIdsForScreening(
      catalog: Catalog, movieProviderId: ProviderId, screeningId: ScreeningId, seatIds: seq<SeatId>): set<SeatId>
  {
    if screeningId !in catalog.screenings || catalog.screenings[screeningId].movieProviderId != movieProviderId then {}
    else
      set id | id in catalog.seats && id in seatIds
               && catalog.seats[id].movieProviderId == movieProviderId
               && catalog.seats[id].auditoriumId == catalog.screenings[screeningId].auditoriumId
  }

  /** The loop that looks for a seat the auditorium does not have: the first such, in list order. */
  method AssertSeatsBelongToScreening(
      catalog: Catalog, movieProviderId: ProviderId, screeningId: ScreeningId, seatIds: seq<SeatId>)
    returns (missing: Option<SeatId>)
    requires screeningId in catalog.screenings && catalog.screenings[screeningId].movieProviderId == movieProviderId
    ensures missing.None? <==> SeatSet(seatIds) <= SeatsOf(catalog, screeningId)
    ensures missing.Some? ==>
              exists i ::
                && 0 <= i < |seatIds| && seatIds[i] == missing.value
                && missing.value !in SeatsOf(catalog, screeningId)
                && forall j | 0 <= j < i :: seatIds[j] in SeatsOf(catalog, screeningId)
  {
    var available := FindSeatsByIdsForScreening(catalog, movieProviderId, screeningId, seatIds);
    for i := 0 to |seatIds|
      invariant forall j | 0 <= j < i :: seatIds[j] in SeatsOf(catalog, screeningId)
    {
      if seatIds[i] !in available {
        assert seatIds[i] in SeatSet(seatIds);
        return Some(seatIds[i]);
      }
    }
    missing := None;
  }

  /** A request is accepted exactly when the provider owns the screening and the seats are a
      non-empty list of distinct seats of its auditorium; it then waits at the back of the queue. */
  method RequestReservation(store: Store, movieProviderId: ProviderId, userId: UserId, newId: RequestId,
                            screeningId: ScreeningId, seatIds: seq<SeatId>)
    returns (r: Result<ReservationRequest, RequestError>)
    requires store.Valid()
    modifies store
    ensures var demand := Demand(movieProviderId, screeningId, SeatSet(seatIds), userId);
            && (r.Ok? <==>
                && WellPlaced(store.catalog, demand) && NoDuplicates(seatIds)
                && newId !in old(store.requestsById) && old(store.nextSequence) <= MAX_SAFE_INTEGER)
            && (r.Ok? ==>
                  && store.Valid() && store.nextSequence == old(store.nextSequence) + 1
                  && store.View() == Enqueue(old(store.View()), newId, demand, old(store.nextSequence))
                  && store.requestsById == old(store.requestsById)[newId := r.value]
                  && r.value == ReservationRequest(newId, movieProviderId, screeningId, seatIds, userId, REQUESTED)
                  && forall other | other in old(store.View()).rows ::
                       old(store.View()).rows[other].sequence < old(store.nextSequence))
    ensures r.Err? && r.error != NotSaved(SequenceExhausted) ==> unchanged(store)
    ensures var owned := screeningId in store.catalog.screenings
                         && store.catalog.screenings[screeningId].movieProviderId == movieProviderId;
            var fit := SeatSet(seatIds) <= SeatsOf(store.catalog, screeningId);
            && (r == Err(ScreeningNotFound) <==> !owned)
            && ((r.Err? && r.error.SeatNotAvailable?) <==> owned && !fit)
            && (r.Err? && r.error.SeatNotAvailable? ==>
                  exists i ::
                    && 0 <= i < |seatIds| && seatIds[i] == r.error.seatId
                    && r.error.seatId !in SeatsOf(store.catalog, screeningId)
                    && forall j | 0 <= j < i :: seatIds[j] in SeatsOf(store.catalog, screeningId))
            && (r == Err(Invalid(NoSeats)) <==> owned && seatIds == [])
            && (r == Err(Invalid(DuplicateSeats)) <==> owned && fit && !NoDuplicates(seatIds))
            && (r == Err(NotSaved(AlreadyExists(newId))) <==>
                  owned && fit && seatIds != [] && NoDuplicates(seatIds) && newId in old(store.requestsById))
            && (r == Err(NotSaved(SequenceExhausted)) <==>
                  && owned && fit && seatIds != [] && NoDuplicates(seatIds) && newId !in old(store.requestsById)
                  && old(store.nextSequence) > MAX_SAFE_INTEGER)
  {
    if screeningId !in store.catalog.screenings
       || store.catalog.screenings[screeningId].movieProviderId != movieProviderId {
      return Err(ScreeningNotFound);
    }
    var missing := AssertSeatsBelongToScreening(store.catalog, movieProviderId, screeningId, seatIds);
    if missing.Some? {
      return Err(SeatNotAvailable(missing.value));
    }
    SizeTestFindsDuplicates(seatIds);
    var created := CreateReservationRequest(newId, movieProviderId, screeningId, seatIds, userId);
    if created.Err? {
      return Err(Invalid(created.error));
    }
    assert seatIds[0] in SeatSet(seatIds);
    var saved := store.SaveReservationRequest(created.value);
    if saved.Err? {
      return Err(NotSaved(saved.error));
    }
    r := Ok(created.value);
  }
}
