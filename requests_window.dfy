/**
 * `RequestsWindow`: the request list with its search box, status picker and
 * date sort, and the confirm, reject and create buttons. `_filteredRequests`
 * holds the same objects as `_allRequests`, so it is modelled as positions
 * in `all`: a status set on the selected object shows in both lists.
 */
module RequestsWindows {
  import opened Wrappers
  import opened Text
  import opened Sorting
  import opened Users
  import opened Tours
  import opened Requests
  import opened Tables
  import opened Store

  // ---------------------------------------------------------------------
  // Visibility by role

  datatype RequestButtons = RequestButtons(createRequest: bool, confirm: bool, reject: bool)

  /** The constructor's visibility rules: create for an administrator, confirm and reject for a manager or an administrator. */
  function ButtonsFor(user: Option<User>): (b: RequestButtons)
    ensures b.createRequest <==> user.Some? && user.value.IsAdmin()
    ensures b.confirm == b.reject
    ensures b.confirm <==> user.Some? && (user.value.IsManager() || user.value.IsAdmin())
    ensures user.None? ==> !b.createRequest && !b.confirm && !b.reject
    ensures b.createRequest ==> b.confirm
  {
    match user
    case None => RequestButtons(false, false, false)
    case Some(u) =>
      var canManage := u.IsManager() || u.IsAdmin();
      RequestButtons(u.IsAdmin(), canManage, canManage)
  }

  // ---------------------------------------------------------------------
  // Filters and the date order

  /**
   * The two filters of `ApplyFilters`: unless the search text is empty, its
   * lower case occurs in the lower-cased client name, the id or the
   * lower-cased tour name; unless the status picker shows "Все" or nothing,
   * the status equals it.
   */
  predicate PassesFilters(r: Request, search: string, status: Option<string>) {
    var needle := ToLower(search);
    (search == "" || Contains(ToLower(r.clientName), needle) || Contains(IntToString(r.id), needle) || Contains(ToLower(r.tourName), needle))
    && (status.None? || status.value == FilterAll || r.status == status)
  }

  /** The positions of the requests that pass the filters: all of them, each once, in list order. */
  function FilteredIndices(all: seq<Request>, search: string, status: Option<string>): (r: seq<int>)
    ensures forall k :: 0 <= k < |r| ==> 0 <= r[k] < |all| && PassesFilters(all[r[k]], search, status)
    ensures forall k, l :: 0 <= k < l < |r| ==> r[k] < r[l]
    ensures forall i :: 0 <= i < |all| && PassesFilters(all[i], search, status) ==> i in r
    decreases |all|
  {
    if all == [] then []
    else
      var n := |all| - 1;
      var front := FilteredIndices(all[..n], search, status);
      assert forall k :: 0 <= k < |front| ==> all[..n][front[k]] == all[front[k]];
      if PassesFilters(all[n], search, status) then front + [n] else front
  }

  /** The request date at a position, and 0 past the end. */
  function DateAt(all: seq<Request>, i: int): int {
    if 0 <= i < |all| then all[i].requestDate else 0
  }

  /** `OrderBy(r => r.RequestDate)` on positions, and `OrderByDescending` with the arguments swapped. */
  function ByDate(all: seq<Request>, ascending: bool): (int, int) -> bool {
    if ascending then (i: int, j: int) => DateAt(all, i) <= DateAt(all, j)
    else (i: int, j: int) => DateAt(all, j) <= DateAt(all, i)
  }

  lemma ByDateIsPreorder(all: seq<Request>, ascending: bool)
    ensures Total(ByDate(all, ascending)) && Transitive(ByDate(all, ascending))
  {
  }

  /** The shown positions reordered by request date in the given direction: the same positions, ordered. */
  function DateOrder(all: seq<Request>, shown: seq<int>, ascending: bool): (r: seq<int>)
    requires forall k :: 0 <= k < |shown| ==> 0 <= shown[k] < |all|
    ensures multiset(r) == multiset(shown)
    ensures forall k :: 0 <= k < |r| ==> 0 <= r[k] < |all|
    ensures ascending ==> forall k, l :: 0 <= k < l < |r| ==> all[r[k]].requestDate <= all[r[l]].requestDate
    ensures !ascending ==> forall k, l :: 0 <= k < l < |r| ==> all[r[k]].requestDate >= all[r[l]].requestDate
  {
    var le := ByDate(all, ascending);
    ByDateIsPreorder(all, ascending);
    SortBySorted(shown, le);
    var r := SortBy(shown, le);
    forall k | 0 <= k < |r| ensures 0 <= r[k] < |all| {
      assert r[k] in multiset(shown);
    }
    assert Sorted(r, le);
    r
  }

  /** What a click on "Подтвердить" or "Отклонить" ends in. */
  datatype StatusOutcome = SeatsTaken | Declined | Changed | UpdateFailed

  /** What a click on "Создать заявку" ends in. */
  datatype CreateOutcome = AccessDenied | Cancelled | Reloaded

  class RequestsWindow {
    const db: Database
    const currentUser: Option<User>
    const buttons: RequestButtons
    /** `_allRequests`. */
    var all: seq<Request>
    /** `_filteredRequests`, as positions in `all`. */
    var shown: seq<int>
    /** The grid's selected item, as a position in `all`. */
    var selected: Option<int>
    var sortAscending: bool
    var search: string
    /** The status picker's item; `None` when nothing is selected. */
    var statusFilter: Option<string>

    ghost predicate Valid()
      reads this
    {
      (forall k :: 0 <= k < |shown| ==> 0 <= shown[k] < |all|)
      && (selected.Some? ==> selected.value in shown)
    }

    /** `UpdateButtonsState`: confirm and reject are enabled on a selected request whose status is "Новая". */
    predicate ConfirmEnabled()
      reads this
    {
      selected.Some? && 0 <= selected.value < |all| && all[selected.value].status == Some(StatusNew)
    }

    constructor(db: Database, currentUser: Option<User>)
      ensures Valid() && this.db == db && this.currentUser == currentUser
      ensures buttons == ButtonsFor(currentUser)
      ensures all == AllRequests(db.requests, db.tours, db.users, "", FilterAll)
      ensures shown == seq(|all|, i => i) && selected.None? && sortAscending
    {
      this.db := db;
      this.currentUser := currentUser;
      buttons := ButtonsFor(currentUser);
      all := [];
      shown := [];
      selected := None;
      sortAscending := true;
      search := "";
      statusFilter := None;
      new;
      LoadRequests();
    }

    /**
     * `LoadRequests`: all requests, newest first, and all of them shown; the
     * new items source clears the selection.
     */
    method LoadRequests()
      modifies `all, `shown, `selected
      ensures Valid()
      ensures all == AllRequests(db.requests, db.tours, db.users, "", FilterAll)
      ensures shown == seq(|all|, i => i) && selected.None?
    {
      all := db.GetAllRequests("", FilterAll);
      shown := seq(|all|, i => i);
      selected := None;
    }

    /** The user selects a row of the grid. */
    method Select(k: nat)
      requires Valid() && k < |shown|
      modifies `selected
      ensures Valid() && selected == Some(shown[k])
    {
      selected := Some(shown[k]);
    }

    /** Clears `_filteredRequests` and adds `items` one by one; clearing the collection clears the selection. */
    method Refill(items: seq<int>)
      requires forall k :: 0 <= k < |items| ==> 0 <= items[k] < |all|
      modifies `shown, `selected
      ensures Valid() && shown == items && selected.None?
    {
      shown := [];
      selected := None;
      var i := 0;
      while i < |items|
        invariant 0 <= i <= |items|
        invariant shown == items[..i] && selected.None?
      {
        shown := shown + [items[i]];
        i := i + 1;
      }
      assert items[..i] == items;
    }

    /** `ApplyFilters`: the requests that pass both filters, in list order. */
    method ApplyFilters()
      modifies `shown, `selected
      ensures Valid() && shown == FilteredIndices(all, search, statusFilter) && selected.None?
    {
      Refill(FilteredIndices(all, search, statusFilter));
    }

    /** `SearchTextBox_TextChanged`. */
    method SearchTextChanged(text: string)
      modifies `search, `shown, `selected
      ensures Valid() && search == text && shown == FilteredIndices(all, text, statusFilter) && selected.None?
    {
      search := text;
      ApplyFilters();
    }

    /** `StatusFilterComboBox_SelectionChanged`. */
    method StatusFilterChanged(status: Option<string>)
      modifies `statusFilter, `shown, `selected
      ensures Valid() && statusFilter == status && shown == FilteredIndices(all, search, status) && selected.None?
    {
      statusFilter := status;
      ApplyFilters();
    }

    /** `SortByDateButton_Click`: flips the direction and reorders the shown requests by date in it. */
    method SortByDateButtonClick()
      requires Valid()
      modifies `sortAscending, `shown, `selected
      ensures Valid() && sortAscending == !old(sortAscending) && selected.None?
      ensures shown == DateOrder(all, old(shown), sortAscending)
    {
      sortAscending := !sortAscending;
      var sorted := DateOrder(all, shown, sortAscending);
      Refill(sorted);
    }

    /**
     * `ConfirmButton_Click` on the enabled, visible button: refused when the
     * request's tour is found with no free seats; otherwise the stored status
     * becomes "Подтверждена", and the shown object's status too when the
     * update found the row. No seat count changes.
     */
    method ConfirmButtonClick() returns (outcome: StatusOutcome)
      requires Valid() && db.Valid() && buttons.confirm && ConfirmEnabled()
      modifies `all, db`requests
      ensures Valid() && db.Valid() && db.tours == old(db.tours)
      ensures var req := old(all[selected.value]);
        var tour := TourById(db.tours, db.countries, db.busTypes, req.tourId);
        if tour.Some? && tour.value.freeSeats <= 0 then
          outcome == SeatsTaken && all == old(all) && db.requests == old(db.requests)
        else
          db.requests == SetRequestStatus(old(db.requests), req.id, StatusConfirmed)
          && (outcome == Changed <==> HasRequest(old(db.requests), req.id))
          && (outcome == Changed ==> all == old(all)[selected.value := req.(status := Some(StatusConfirmed))])
          && (outcome != Changed ==> all == old(all))
      ensures outcome == Changed ==> !ConfirmEnabled()
    {
      var req := all[selected.value];
      var tour := TourById(db.tours, db.countries, db.busTypes, req.tourId);
      if tour.Some? && tour.value.freeSeats <= 0 {
        return SeatsTaken;
      }
      var ok := db.UpdateRequestStatus(req.id, StatusConfirmed);
      if ok {
        all := all[selected.value := req.(status := Some(StatusConfirmed))];
        outcome := Changed;
      } else {
        outcome := UpdateFailed;
      }
    }

    /**
     * `RejectButton_Click` on the enabled, visible button: after a "Yes"
     * (`confirmed`), the stored status becomes "Отклонена", and the shown
     * object's status too when the update found the row. No seat count changes.
     */
    method RejectButtonClick(confirmed: bool) returns (outcome: StatusOutcome)
      requires Valid() && db.Valid() && buttons.reject && ConfirmEnabled()
      modifies `all, db`requests
      ensures Valid() && db.Valid() && db.tours == old(db.tours)
      ensures var req := old(all[selected.value]);
        if !confirmed then
          outcome == Declined && all == old(all) && db.requests == old(db.requests)
        else
          db.requests == SetRequestStatus(old(db.requests), req.id, StatusRejected)
          && (outcome == Changed <==> HasRequest(old(db.requests), req.id))
          && (outcome == Changed ==> all == old(all)[selected.value := req.(status := Some(StatusRejected))])
          && (outcome != Changed ==> all == old(all))
      ensures outcome == Changed ==> !ConfirmEnabled()
    {
      if !confirmed {
        return Declined;
      }
      var req := all[selected.value];
      var ok := db.UpdateRequestStatus(req.id, StatusRejected);
      if ok {
        all := all[selected.value := req.(status := Some(StatusRejected))];
        outcome := Changed;
      } else {
        outcome := UpdateFailed;
      }
    }

    /**
     * `CreateRequestButton_Click`: refused unless the user is an
     * administrator; `dialogResult` is what the create dialog returned, and
     * the list is reloaded only when it is `true`.
     */
    method CreateRequestButtonClick(dialogResult: Option<bool>) returns (outcome: CreateOutcome)
      requires Valid()
      modifies `all, `shown, `selected
      ensures Valid()
      ensures currentUser.None? || !currentUser.value.IsAdmin() ==> outcome == AccessDenied
      ensures outcome == Reloaded <==> currentUser.Some? && currentUser.value.IsAdmin() && dialogResult == Some(true)
      ensures outcome == Reloaded ==>
        all == AllRequests(db.requests, db.tours, db.users, "", FilterAll) && shown == seq(|all|, i => i) && selected.None?
      ensures outcome != Reloaded ==> all == old(all) && shown == old(shown) && selected == old(selected)
    {
      if currentUser.None? || !currentUser.value.IsAdmin() {
        return AccessDenied;
      }
      if dialogResult == Some(true) {
        LoadRequests();
        return Reloaded;
      }
      return Cancelled;
    }
  }
}
