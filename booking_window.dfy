/** `BookingWindow`: books one tour for the client whose full name is typed in, prefilled for a signed-in user. */
module BookingWindows {
  import opened Wrappers
  import opened Users
  import opened Requests
  import opened RequestCodes
  import opened Tables
  import opened Store

  /** What a click on "Забронировать" ends in. */
  datatype BookOutcome = NameMissing | Booked | Failed(error: BookingError)

  class BookingWindow {
    const db: Database
    const tourId: int
    const currentUser: Option<User>
    /** The client-name box. */
    var clientName: string
    var dialogResult: Option<bool>

    /** The box shows the signed-in user's full name, and is empty for a guest. */
    constructor(tourId: int, currentUser: Option<User>, db: Database)
      ensures this.db == db && this.tourId == tourId && this.currentUser == currentUser
      ensures clientName == (if currentUser.Some? then currentUser.value.fullName else "")
      ensures dialogResult.None?
    {
      this.tourId := tourId;
      this.currentUser := currentUser;
      this.db := db;
      clientName := if currentUser.Some? then currentUser.value.fullName else "";
      dialogResult := None;
    }

    /** The user types into the client-name box. */
    method Enter(name: string)
      modifies `clientName
      ensures clientName == name
    {
      clientName := name;
    }

    /**
     * `BookButton_Click`: an empty name is refused before any request is
     * built; otherwise the request for the window's tour is built at `now`
     * (its tour name is left unset) and `CreateRequest` runs, with
     * `commitSucceeds` saying whether its transaction commits.
     */
    method BookButtonClick(now: int, commitSucceeds: bool) returns (outcome: BookOutcome)
      requires db.Valid()
      modifies `dialogResult, db`requests, db`tours, db`nextRequestId
      ensures db.Valid()
      ensures clientName == "" ==> outcome == NameMissing && db.requests == old(db.requests) && db.tours == old(db.tours)
      ensures clientName != "" ==>
        var request := NewBooking(clientName, tourId, "", now);
        var checked := BookingCheck(db.users, old(db.tours), request);
        (outcome == Booked <==> checked.Ok? && commitSucceeds)
        && (checked.Err? ==> outcome == Failed(checked.error))
        && (outcome == Booked ==>
              db.requests == old(db.requests) + [NewRequestRow(old(db.nextRequestId), NextRequestCode(CodesOf(old(db.requests))),
                                                               request, checked.value.0, checked.value.1)]
              && db.tours == TakeSeat(old(db.tours), tourId))
        && (outcome != Booked ==> db.requests == old(db.requests) && db.tours == old(db.tours))
      ensures outcome == Booked ==> db.nextRequestId == old(db.nextRequestId) + 1
      ensures outcome != Booked ==> db.nextRequestId == old(db.nextRequestId)
      ensures outcome == Booked ==> dialogResult == Some(true)
      ensures outcome != Booked ==> dialogResult == old(dialogResult)
    {
      if clientName == "" {
        return NameMissing;
      }
      var request := NewBooking(clientName, tourId, "", now);
      var r := db.CreateRequest(request, commitSucceeds);
      if r.Ok? {
        dialogResult := Some(true);
        outcome := Booked;
      } else {
        outcome := Failed(r.error);
      }
    }
  }
}
