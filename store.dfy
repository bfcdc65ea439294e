/**
 * `SqlDatabaseService` over an in-memory store: the tables are sequences of
 * rows, and the identity columns are counters. Storage failures other than a
 * failed commit of the booking transaction are not modelled.
 */
module Store {
  import opened Wrappers
  import opened Text
  import opened Lists
  import opened Sorting
  import opened Tours
  import opened Requests
  import opened RequestCodes
  import opened Tables

  /** A value above every id in `ids`: the next value of an identity column. */
  function NextId(ids: seq<int>): (n: int)
    ensures forall i :: 0 <= i < |ids| ==> ids[i] < n
    decreases |ids|
  {
    if ids == [] then 1
    else
      var rest := NextId(ids[1..]);
      assert forall i :: 1 <= i < |ids| ==> ids[i] == ids[1..][i - 1];
      if ids[0] >= rest then ids[0] + 1 else rest
  }

  /** Every request code fits the `int` column and every request id is below the next identity value. */
  ghost predicate ValidRequests(requests: seq<RequestRow>, nextId: int) {
    AllInt32(CodesOf(requests)) && forall i :: 0 <= i < |requests| ==> requests[i].requestId < nextId
  }

  ghost predicate IdsBelow(tours: seq<TourRow>, nextId: int) {
    forall i :: 0 <= i < |tours| ==> tours[i].tourId < nextId
  }

  ghost predicate BusIdsBelow(busTypes: seq<BusType>, nextId: int) {
    forall i :: 0 <= i < |busTypes| ==> busTypes[i].busTypeId < nextId
  }

  /** The booking's two writes keep the tables valid. */
  lemma BookingKeepsValid(requests: seq<RequestRow>, tours: seq<TourRow>, nextRequestId: int, nextTourId: int, row: RequestRow, tourId: int)
    requires ValidRequests(requests, nextRequestId) && IdsBelow(tours, nextTourId)
    requires IsInt32(row.requestCode) && row.requestId == nextRequestId
    ensures ValidRequests(requests + [row], nextRequestId + 1)
    ensures IdsBelow(TakeSeat(tours, tourId), nextTourId)
  {
    assert CodesOf(requests + [row]) == CodesOf(requests) + [row.requestCode];
  }

  class Database {
    var users: seq<UserRow>
    var countries: seq<CountryRow>
    var busTypes: seq<BusType>
    var tours: seq<TourRow>
    var requests: seq<RequestRow>
    var nextRequestId: int
    var nextTourId: int
    var nextBusTypeId: int

    /** Request codes fit the `int` column, and every identity counter is above the ids in use. */
    ghost predicate Valid()
      reads this
    {
      ValidRequests(requests, nextRequestId) && IdsBelow(tours, nextTourId) && BusIdsBelow(busTypes, nextBusTypeId)
    }

    constructor(users: seq<UserRow>, countries: seq<CountryRow>, busTypes: seq<BusType>,
                tours: seq<TourRow>, requests: seq<RequestRow>)
      requires AllInt32(CodesOf(requests))
      ensures Valid()
      ensures this.users == users && this.countries == countries && this.busTypes == busTypes
      ensures this.tours == tours && this.requests == requests
    {
      this.users := users;
      this.countries := countries;
      this.busTypes := busTypes;
      this.tours := tours;
      this.requests := requests;
      var requestIds := Map(requests, (r: RequestRow) => r.requestId);
      var tourIds := Map(tours, (t: TourRow) => t.tourId);
      var busTypeIds := Map(busTypes, (b: BusType) => b.busTypeId);
      nextRequestId := NextId(requestIds);
      nextTourId := NextId(tourIds);
      nextBusTypeId := NextId(busTypeIds);
    }

    /** `GetAllTours`: reads the rows that pass the query, sorts them, and falls back to the sample tours when none pass. */
    method GetAllTours(guestOrClient: bool, search: string, countryFilter: string, sortBy: string, now: int)
      returns (r: seq<Tour>)
      ensures r == AllTours(tours, countries, busTypes, now, guestOrClient, search, countryFilter, sortBy)
    {
      var found := ReadTours(guestOrClient, search, countryFilter);
      r := SortTours(found, sortBy);
      if r == [] {
        r := FallbackTours(now, search, countryFilter, sortBy);
      }
    }

    /** The reader loop of `GetAllTours`: the joined rows that pass the `WHERE` clause, in table order. */
    method ReadTours(guestOrClient: bool, search: string, countryFilter: string) returns (found: seq<Tour>)
      ensures found == Map(Filter(tours, QueryFilter(countries, guestOrClient, search, countryFilter)), ViewOf(countries, busTypes))
    {
      var p := QueryFilter(countries, guestOrClient, search, countryFilter);
      var f := ViewOf(countries, busTypes);
      found := [];
      var i := 0;
      while i < |tours|
        invariant 0 <= i <= |tours|
        invariant found == Map(Filter(tours[..i], p), f)
      {
        assert tours[..i + 1] == tours[..i] + [tours[i]];
        FilterSnoc(tours[..i], tours[i], p);
        if StoredTourPasses(tours[i], countries, guestOrClient, search, countryFilter) {
          MapSnoc(Filter(tours[..i], p), tours[i], f);
          found := found + [TourView(tours[i], countries, busTypes)];
        }
        i := i + 1;
      }
      assert tours[..i] == tours;
    }

    /** `GetAllRequests`: reads the joined rows that pass the filters and orders them newest first. */
    method GetAllRequests(search: string, statusFilter: string) returns (r: seq<Request>)
      ensures r == AllRequests(requests, tours, users, search, statusFilter)
    {
      var p := RequestFilter(tours, users, search, statusFilter);
      var f := RequestViewOf(tours, users);
      var found: seq<Request> := [];
      var i := 0;
      while i < |requests|
        invariant 0 <= i <= |requests|
        invariant found == Map(Filter(requests[..i], p), f)
      {
        assert requests[..i + 1] == requests[..i] + [requests[i]];
        FilterSnoc(requests[..i], requests[i], p);
        if RequestPasses(requests[i], tours, users, search, statusFilter) {
          MapSnoc(Filter(requests[..i], p), requests[i], f);
          found := found + [RequestView(requests[i], tours, users)];
        }
        i := i + 1;
      }
      assert requests[..i] == requests;
      r := SortBy(found, NewestFirst());
    }

    /**
     * `GenerateSequentialRequestCode`: the least free code in 1..1000; else
     * `max + 1` (unchecked); else the first free code among the hundred after it.
     */
    method GenerateSequentialRequestCode() returns (code: int)
      requires Valid()
      ensures code == NextRequestCode(CodesOf(requests))
    {
      var codes := CodesOf(requests);
      var free := TierOne(codes);
      if free.Some? {
        return free.value;
      }
      var next := Wrap32(MaxPositive(codes) + 1);
      if next in codes {
        TierTwoTaken(codes);
        var lo := Wrap32(next + 1);
        var hi := Wrap32(next + ProbeLength);
        var i := lo;
        while i <= hi
          invariant lo <= i <= hi + 1
          invariant FirstFreeIn(codes, i, hi) == FirstFreeIn(codes, lo, hi)
          decreases hi - i
        {
          if i !in codes {
            return i;
          }
          i := Wrap32(i + 1);
        }
      }
      return next;
    }

    /**
     * `CreateRequest`: resolves the client, checks the seats, prices the
     * booking, allocates a code, and then inserts the request and takes a seat
     * in one transaction. `commitSucceeds` says whether that transaction commits.
     */
    method CreateRequest(request: Request, commitSucceeds: bool) returns (r: Result<(), BookingError>)
      requires Valid()
      modifies `requests, `tours, `nextRequestId
      ensures Valid()
      ensures r.Ok? <==> BookingCheck(old(users), old(tours), request).Ok? && commitSucceeds
      ensures BookingCheck(old(users), old(tours), request).Err? ==> r == Err(BookingCheck(old(users), old(tours), request).error)
      ensures BookingCheck(old(users), old(tours), request).Ok? && !commitSucceeds ==> r == Err(StorageFailure)
      ensures r.Err? ==>
        requests == old(requests) && tours == old(tours) && nextRequestId == old(nextRequestId)
      ensures r.Ok? ==>
        var checked := BookingCheck(old(users), old(tours), request).value;
        requests == old(requests) + [NewRequestRow(old(nextRequestId), NextRequestCode(CodesOf(old(requests))), request, checked.0, checked.1)]
        && tours == TakeSeat(old(tours), request.tourId)
        && nextRequestId == old(nextRequestId) + 1
      ensures old(SeatsInRange(tours) && UniqueTourIds(tours)) ==> SeatsInRange(tours)
    {
      var clientId := ClientIdByName(users, request.clientName);
      if clientId.None? {
        return Err(ClientNotFound);
      }
      var offer := SeatOfferOf(tours, request.tourId);
      if offer.freeSeats <= 0 {
        return Err(NoFreeSeats);
      }
      var totalPrice := DiscountedPrice(offer.price, offer.discount);
      var code := GenerateSequentialRequestCode();
      if !commitSucceeds {
        return Err(StorageFailure);
      }
      var row := NewRequestRow(nextRequestId, code, request, clientId.value, totalPrice);
      var booked := TakeSeat(tours, request.tourId);
      BookingKeepsValid(requests, tours, nextRequestId, nextTourId, row, request.tourId);
      if SeatsInRange(tours) && UniqueTourIds(tours) {
        TakeSeatKeepsSeatsInRange(tours, request.tourId);
      }
      requests := requests + [row];
      nextRequestId := nextRequestId + 1;
      tours := booked;
      r := Ok(());
    }

    /** `UpdateRequestStatus`: sets the status of the request with that id; true iff such a row exists. */
    method UpdateRequestStatus(requestId: int, status: string) returns (ok: bool)
      requires Valid()
      modifies `requests
      ensures Valid()
      ensures ok == HasRequest(old(requests), requestId)
      ensures requests == SetRequestStatus(old(requests), requestId, status)
    {
      ok := HasRequest(requests, requestId);
      SetRequestStatusProperties(requests, requestId, status);
      requests := SetRequestStatus(requests, requestId, status);
    }

    /** `DeleteTour`: refused while a request refers to the tour; otherwise removes it, true iff it existed. */
    method DeleteTour(tourId: int) returns (ok: bool)
      requires Valid()
      modifies `tours
      ensures Valid()
      ensures HasRequestFor(requests, tourId) ==> !ok && tours == old(tours)
      ensures !HasRequestFor(requests, tourId) ==> ok == old(HasTour(tours, tourId)) && tours == RemoveTour(old(tours), tourId)
    {
      if HasRequestFor(requests, tourId) {
        return false;
      }
      ok := HasTour(tours, tourId);
      RemoveTourExactly(tours, tourId);
      tours := RemoveTour(tours, tourId);
    }
  }
}
