/**
 * `MainWindow`: the tour cards, the management panel, and the handlers of
 * their buttons. A guest is the window opened without a user.
 */
module MainWindows {
  import opened Wrappers
  import opened Users
  import opened Tours
  import opened Tables
  import opened Store

  // ---------------------------------------------------------------------
  // What each role sees

  /** Whether the user may manage tours, buses and requests. */
  predicate CanManage(user: Option<User>) {
    user.Some? && (user.value.IsManager() || user.value.IsAdmin())
  }

  predicate IsAdminUser(user: Option<User>) {
    user.Some? && user.value.IsAdmin()
  }

  /** The management panel and the buttons on it, as `InitializeUI` leaves them shown. */
  datatype Panels = Panels(managerPanel: bool, createTour: bool, busManagement: bool, requests: bool)

  /**
   * `InitializeUI`: for a guest, a client or an unknown role the panel is
   * collapsed; a manager gets the panel with bus management and requests but
   * not tour creation; an administrator gets all three.
   */
  function MainPanels(user: Option<User>): (p: Panels)
    ensures p.managerPanel <==> CanManage(user)
    ensures p.busManagement <==> CanManage(user)
    ensures p.requests <==> CanManage(user)
    ensures p.createTour <==> IsAdminUser(user)
  {
    var hidden := Panels(false, false, false, false);
    match user
    case None => hidden
    case Some(u) =>
      RolesExclusive(u);
      if u.IsAuthorizedClient() then hidden
      else if u.IsManager() then Panels(true, false, true, true)
      else if u.IsAdmin() then Panels(true, true, true, true)
      else hidden
  }

  /** The buttons on a tour card. */
  datatype CardButtons = CardButtons(book: bool, edit: bool, delete: bool)

  /**
   * `AddBookingButton` and `AddManagementButtons`: the booking button for a
   * signed-in user with a known role; edit and delete for an administrator.
   */
  function TourCardButtons(user: Option<User>): (b: CardButtons)
    ensures b.book <==> user.Some? && user.value.HasKnownRole()
    ensures b.edit <==> IsAdminUser(user)
    ensures b.delete <==> IsAdminUser(user)
  {
    var isGuest := user.None?;
    var book := !isGuest && user.Some?
      && (user.value.IsAuthorizedClient() || user.value.IsManager() || user.value.IsAdmin());
    var management := CanManage(user);
    CardButtons(book, management && user.value.IsAdmin(), management && user.value.IsAdmin())
  }

  /** The card backgrounds of `GetTourBackground`. */
  datatype Background = Gold | Pink | White

  /** A special offer is gold, otherwise a tour with few seats is pink, otherwise white. */
  function TourBackground(t: Tour): (r: Background)
    ensures r == Gold <==> t.discount > 15.0
    ensures r == Pink <==> t.discount <= 15.0 && t.capacity > 0 && 10 * t.freeSeats < t.capacity
    ensures r == White <==> t.discount <= 15.0 && !(t.capacity > 0 && 10 * t.freeSeats < t.capacity)
  {
    FewSeatsIffTenfold(t);
    if t.IsSpecialOffer() then Gold
    else if t.IsFewSeats() then Pink
    else White
  }

  // ---------------------------------------------------------------------
  // The tour query

  /** The arguments `LoadTours` passes to `GetAllTours`. */
  datatype TourQuery = TourQuery(guestOrClient: bool, search: string, countryFilter: string, sortBy: string)

  /**
   * `LoadTours`: a manager or an administrator gets the search box, the
   * country item and the sort item (an empty picker keeps the default);
   * everyone else gets the guest or client query with no search, no country
   * and the default sort.
   */
  function QueryFor(user: Option<User>, searchText: string, countryItem: Option<string>, sortItem: Option<string>): (q: TourQuery)
    ensures !CanManage(user) ==> q == TourQuery(true, "", "", DefaultSort)
    ensures CanManage(user) ==>
      !q.guestOrClient && q.search == searchText
      && q.countryFilter == (if countryItem.Some? then countryItem.value else "")
      && q.sortBy == (if sortItem.Some? then sortItem.value else DefaultSort)
  {
    if CanManage(user) then
      TourQuery(false, searchText, if countryItem.Some? then countryItem.value else "",
                if sortItem.Some? then sortItem.value else DefaultSort)
    else TourQuery(true, "", "", DefaultSort)
  }

  /** Whoever cannot manage sees only tours with a free seat, ordered by start date. */
  lemma NonManagerSeesFreeToursByDate(tours: seq<TourRow>, countries: seq<CountryRow>, busTypes: seq<BusType>, now: int,
                                      user: Option<User>, searchText: string, countryItem: Option<string>, sortItem: Option<string>)
    requires !CanManage(user)
    ensures var q := QueryFor(user, searchText, countryItem, sortItem);
      var shown := AllTours(tours, countries, busTypes, now, q.guestOrClient, q.search, q.countryFilter, q.sortBy);
      (forall t :: t in shown ==> t.freeSeats > 0)
      && forall i, j :: 0 <= i < j < |shown| ==> shown[i].startDate <= shown[j].startDate
  {
    var shown := AllTours(tours, countries, busTypes, now, true, "", "", DefaultSort);
    forall t | t in shown ensures t.freeSeats > 0 {
      GuestSeesOnlyFreeTours(tours, countries, busTypes, now, "", "", DefaultSort, t);
    }
    AllToursSorted(tours, countries, busTypes, now, true, "", "", DefaultSort);
    DefaultSortIsStartDate();
  }

  /** What a handler of the main window ends in. */
  datatype MainOutcome = AccessDenied | TourMissing | NoSeats | Opened | Reloaded | Cancelled | DeleteFailed

  class MainWindow {
    const db: Database
    const currentUser: Option<User>
    const isGuest: bool
    /** `_tours`, the tours the cards show. */
    var tours: seq<Tour>
    /** The search box, and the items of the country and sort pickers (`None` when nothing is selected). */
    var searchText: string
    var countryItem: Option<string>
    var sortItem: Option<string>

    constructor(db: Database, user: Option<User>)
      ensures this.db == db && currentUser == user && (isGuest <==> user.None?)
      ensures tours == [] && searchText == "" && countryItem.None? && sortItem.None?
    {
      this.db := db;
      currentUser := user;
      isGuest := user.None?;
      tours := [];
      searchText := "";
      countryItem := None;
      sortItem := None;
    }

    /** The query `LoadTours` sends for the current user and pickers. */
    function Query(): TourQuery
      reads `searchText, `countryItem, `sortItem
    {
      QueryFor(currentUser, searchText, countryItem, sortItem)
    }

    /** `LoadTours`: clears `_tours` and adds each tour `GetAllTours` returns; `now` is the clock it reads. */
    method LoadTours(now: int)
      modifies `tours
      ensures var q := Query();
        tours == AllTours(db.tours, db.countries, db.busTypes, now, q.guestOrClient, q.search, q.countryFilter, q.sortBy)
    {
      var q := Query();
      var listed := db.GetAllTours(q.guestOrClient, q.search, q.countryFilter, q.sortBy, now);
      CopyTours(listed);
    }

    /** The `foreach` of `LoadTours`: `_tours` is cleared, then each listed tour is added in turn. */
    method CopyTours(listed: seq<Tour>)
      modifies `tours
      ensures tours == listed
    {
      tours := [];
      var i := 0;
      while i < |listed|
        invariant 0 <= i <= |listed|
        invariant tours == listed[..i]
      {
        tours := tours + [listed[i]];
        i := i + 1;
      }
      assert listed[..i] == listed;
    }

    /** `SearchTextBox_TextChanged`, `CountryFilterComboBox_SelectionChanged` and `SortComboBox_SelectionChanged`. */
    method FiltersChanged(text: string, country: Option<string>, sort: Option<string>, now: int)
      modifies `searchText, `countryItem, `sortItem, `tours
      ensures searchText == text && countryItem == country && sortItem == sort
      ensures var q := Query();
        tours == AllTours(db.tours, db.countries, db.busTypes, now, q.guestOrClient, q.search, q.countryFilter, q.sortBy)
    {
      searchText := text;
      countryItem := country;
      sortItem := sort;
      LoadTours(now);
    }

    /**
     * `BookButton_Click` on a card's booking button: refused before the
     * dialog opens when the tour is not found or has no free seat;
     * `dialogResult` is what the booking dialog returned, and the cards are
     * reloaded only when it is `true`.
     */
    method BookButtonClick(tourId: int, dialogResult: Option<bool>, now: int) returns (outcome: MainOutcome)
      requires TourCardButtons(currentUser).book
      modifies `tours
      ensures var tour := TourById(db.tours, db.countries, db.busTypes, tourId);
        && (tour.None? ==> outcome == TourMissing)
        && (tour.Some? && tour.value.freeSeats <= 0 ==> outcome == NoSeats)
        && (outcome == Reloaded <==> tour.Some? && tour.value.freeSeats > 0 && dialogResult == Some(true))
      ensures outcome == Reloaded ==> tours == AllTours(db.tours, db.countries, db.busTypes, now, Query().guestOrClient, Query().search, Query().countryFilter, Query().sortBy)
      ensures outcome != Reloaded ==> tours == old(tours)
    {
      var tour := TourById(db.tours, db.countries, db.busTypes, tourId);
      if tour.None? {
        return TourMissing;
      }
      if tour.value.freeSeats <= 0 {
        return NoSeats;
      }
      if dialogResult == Some(true) {
        LoadTours(now);
        return Reloaded;
      }
      return Cancelled;
    }

    /** `CreateTourButton_Click`: only for an administrator; the cards are reloaded when the dialog returned `true`. */
    method CreateTourButtonClick(dialogResult: Option<bool>, now: int) returns (outcome: MainOutcome)
      modifies `tours
      ensures !IsAdminUser(currentUser) ==> outcome == AccessDenied
      ensures outcome == Reloaded <==> IsAdminUser(currentUser) && dialogResult == Some(true)
      ensures outcome == Reloaded ==> tours == AllTours(db.tours, db.countries, db.busTypes, now, Query().guestOrClient, Query().search, Query().countryFilter, Query().sortBy)
      ensures outcome != Reloaded ==> tours == old(tours)
    {
      if currentUser.None? || !currentUser.value.IsAdmin() {
        return AccessDenied;
      }
      if dialogResult == Some(true) {
        LoadTours(now);
        return Reloaded;
      }
      return Cancelled;
    }

    /** `BusManagementButton_Click`: the bus window opens only for a manager or an administrator. */
    method BusManagementButtonClick() returns (outcome: MainOutcome)
      ensures outcome == (if CanManage(currentUser) then Opened else AccessDenied)
    {
      if currentUser.None? || (!currentUser.value.IsManager() && !currentUser.value.IsAdmin()) {
        return AccessDenied;
      }
      return Opened;
    }

    /** `RequestsButton_Click`: the requests window opens only for a manager or an administrator. */
    method RequestsButtonClick() returns (outcome: MainOutcome)
      ensures outcome == (if CanManage(currentUser) then Opened else AccessDenied)
    {
      if currentUser.None? || (!currentUser.value.IsManager() && !currentUser.value.IsAdmin()) {
        return AccessDenied;
      }
      return Opened;
    }

    /**
     * `EditTourButton_Click`: only for an administrator; the editor opens
     * for a tour `GetTourById` finds, and the cards are reloaded when it
     * returned `true`.
     */
    method EditTourButtonClick(tourId: int, dialogResult: Option<bool>, now: int) returns (outcome: MainOutcome)
      modifies `tours
      ensures !IsAdminUser(currentUser) ==> outcome == AccessDenied
      ensures IsAdminUser(currentUser) && TourById(db.tours, db.countries, db.busTypes, tourId).None? ==> outcome == TourMissing
      ensures outcome == Reloaded <==>
        IsAdminUser(currentUser) && TourById(db.tours, db.countries, db.busTypes, tourId).Some? && dialogResult == Some(true)
      ensures outcome == Reloaded ==> tours == AllTours(db.tours, db.countries, db.busTypes, now, Query().guestOrClient, Query().search, Query().countryFilter, Query().sortBy)
      ensures outcome != Reloaded ==> tours == old(tours)
    {
      if currentUser.None? || !currentUser.value.IsAdmin() {
        return AccessDenied;
      }
      var tour := TourById(db.tours, db.countries, db.busTypes, tourId);
      if tour.None? {
        return TourMissing;
      }
      if dialogResult == Some(true) {
        LoadTours(now);
        return Reloaded;
      }
      return Cancelled;
    }

    /**
     * `DeleteTourButton_Click`: only for an administrator, and only after a
     * "Yes" (`confirmed`); the cards are reloaded when `DeleteTour` succeeded.
     */
    method DeleteTourButtonClick(tourId: int, confirmed: bool, now: int) returns (outcome: MainOutcome)
      requires db.Valid()
      modifies `tours, db`tours
      ensures db.Valid()
      ensures !IsAdminUser(currentUser) ==> outcome == AccessDenied
      ensures IsAdminUser(currentUser) && !confirmed ==> outcome == Cancelled
      ensures outcome == AccessDenied || outcome == Cancelled ==> db.tours == old(db.tours)
      ensures IsAdminUser(currentUser) && confirmed ==>
        if HasRequestFor(db.requests, tourId) then outcome == DeleteFailed && db.tours == old(db.tours)
        else db.tours == RemoveTour(old(db.tours), tourId) && (outcome == Reloaded <==> HasTour(old(db.tours), tourId))
      ensures outcome == Reloaded ==> tours == AllTours(db.tours, db.countries, db.busTypes, now, Query().guestOrClient, Query().search, Query().countryFilter, Query().sortBy)
      ensures outcome != Reloaded ==> tours == old(tours)
    {
      if currentUser.None? || !currentUser.value.IsAdmin() {
        return AccessDenied;
      }
      if !confirmed {
        return Cancelled;
      }
      var ok := db.DeleteTour(tourId);
      if ok {
        LoadTours(now);
        outcome := Reloaded;
      } else {
        outcome := DeleteFailed;
      }
    }
  }
}
