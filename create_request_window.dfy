/** `CreateRequestWindow`: the administrator's request form, with a client picker and a tour picker. */
module CreateRequestWindows {
  import opened Wrappers
  import opened Lists
  import opened Users
  import opened Tours
  import opened Requests
  import opened RequestCodes
  import opened Tables
  import opened Store

  /** `LoadData`'s tour picker: the listed tours with a free seat, in list order. */
  function OfferedTours(listed: seq<Tour>): (r: seq<Tour>)
    ensures forall t :: t in r <==> t in listed && t.freeSeats > 0
  {
    var r := Filter(listed, (t: Tour) => t.freeSeats > 0);
    assert forall t :: t in r ==> t in listed && t.freeSeats > 0 by {
      forall t | t in r ensures t in listed && t.freeSeats > 0 {
        var i :| 0 <= i < |r| && r[i] == t;
      }
    }
    r
  }

  /** What a click on "Создать" ends in. */
  datatype CreateRequestOutcome = NoClient | NoTour | NoSeats | Created | Failed(error: BookingError)

  class CreateRequestWindow {
    const db: Database
    /** The client picker's items, from `GetClients`. */
    const clients: seq<User>
    /** The tour picker's items. */
    const offered: seq<Tour>
    var client: Option<User>
    var tour: Option<Tour>
    var dialogResult: Option<bool>

    /** Every tour the picker offers has a free seat. */
    ghost predicate Valid()
      reads this
    {
      forall t :: t in offered ==> t.freeSeats > 0
    }

    /** `LoadData`; `now` is the clock `GetAllTours` reads for its sample tours. */
    constructor(db: Database, now: int)
      ensures Valid() && this.db == db && clients == ClientList(db.users)
      ensures offered == OfferedTours(AllTours(db.tours, db.countries, db.busTypes, now, true, "", "", DefaultSort))
      ensures client.None? && tour.None? && dialogResult.None?
    {
      this.db := db;
      clients := ClientList(db.users);
      var listed := db.GetAllTours(true, "", "", DefaultSort, now);
      offered := OfferedTours(listed);
      client := None;
      tour := None;
      dialogResult := None;
    }

    method SelectClient(c: User)
      requires c in clients
      modifies `client
      ensures client == Some(c)
    {
      client := Some(c);
    }

    /** The user picks a tour; every tour the picker offers has a free seat. */
    method SelectTour(t: Tour)
      requires Valid() && t in offered
      modifies `tour
      ensures tour == Some(t) && t.freeSeats > 0
    {
      tour := Some(t);
    }

    /**
     * `CreateButton_Click`: a client and a tour must be chosen and the tour
     * must show a free seat; then the request is built at `now` and
     * `CreateRequest` runs, with `commitSucceeds` saying whether its
     * transaction commits. `DialogResult` becomes true only when it succeeded.
     */
    method CreateButtonClick(now: int, commitSucceeds: bool) returns (outcome: CreateRequestOutcome)
      requires db.Valid()
      modifies `dialogResult, db`requests, db`tours, db`nextRequestId
      ensures db.Valid()
      ensures client.None? ==> outcome == NoClient
      ensures client.Some? && tour.None? ==> outcome == NoTour
      ensures client.Some? && tour.Some? && tour.value.freeSeats <= 0 ==> outcome == NoSeats
      ensures outcome.NoClient? || outcome.NoTour? || outcome.NoSeats? || outcome.Failed? ==>
        db.requests == old(db.requests) && db.tours == old(db.tours)
      ensures client.Some? && tour.Some? && tour.value.freeSeats > 0 ==>
        var request := NewBooking(client.value.fullName, tour.value.id, tour.value.name, now);
        var checked := BookingCheck(db.users, old(db.tours), request);
        (outcome == Created <==> checked.Ok? && commitSucceeds)
        && (checked.Err? ==> outcome == Failed(checked.error))
        && (outcome == Created ==>
              db.requests == old(db.requests) + [NewRequestRow(old(db.nextRequestId), NextRequestCode(CodesOf(old(db.requests))),
                                                               request, checked.value.0, checked.value.1)]
              && db.tours == TakeSeat(old(db.tours), tour.value.id))
      ensures outcome == Created ==> db.nextRequestId == old(db.nextRequestId) + 1
      ensures outcome != Created ==> db.nextRequestId == old(db.nextRequestId)
      ensures outcome == Created ==> dialogResult == Some(true)
      ensures outcome != Created ==> dialogResult == old(dialogResult)
    {
      if client.None? {
        return NoClient;
      }
      if tour.None? {
        return NoTour;
      }
      if tour.value.freeSeats <= 0 {
        return NoSeats;
      }
      var request := NewBooking(client.value.fullName, tour.value.id, tour.value.name, now);
      var r := db.CreateRequest(request, commitSucceeds);
      if r.Ok? {
        dialogResult := Some(true);
        outcome := Created;
      } else {
        outcome := Failed(r.error);
      }
    }
  }
}
