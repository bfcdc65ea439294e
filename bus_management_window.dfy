/** `BusManagementWindow`: the bus-type list, ordered by type name, and its add, edit and delete buttons. */
module BusManagementWindows {
  import opened Wrappers
  import opened Sorting
  import opened Tables
  import opened Store

  /** `SELECT … FROM BusTypes ORDER BY TypeName`: every bus type, once, by type name. */
  function BusList(busTypes: seq<BusType>): (r: seq<BusType>)
    ensures Sorted(r, ByTypeName())
    ensures multiset(r) == multiset(busTypes)
  {
    ByTypeNameIsPreorder();
    SortBySorted(busTypes, ByTypeName());
    SortBy(busTypes, ByTypeName())
  }

  /** Removing bus types keeps every remaining id below the identity counter. */
  lemma RemoveBusTypeKeepsIds(busTypes: seq<BusType>, busTypeId: int, nextId: int)
    requires BusIdsBelow(busTypes, nextId)
    ensures BusIdsBelow(RemoveBusType(busTypes, busTypeId), nextId)
  {
    var r := RemoveBusType(busTypes, busTypeId);
    RemoveBusTypeExactly(busTypes, busTypeId);
    forall i | 0 <= i < |r| ensures r[i].busTypeId < nextId {
      assert r[i] in busTypes;
    }
  }

  /** What a click on "Изменить" or "Удалить" ends in. */
  datatype ClickOutcome = NoSelection | Cancelled | Reloaded | DeleteFailed

  class BusManagementWindow {
    const db: Database
    /** `_buses`, the grid's items. */
    var buses: seq<BusType>
    /** The grid's selected item. */
    var selected: Option<BusType>

    constructor(db: Database)
      ensures this.db == db && buses == BusList(db.busTypes) && selected.None?
    {
      this.db := db;
      buses := [];
      selected := None;
      new;
      LoadBuses();
    }

    /**
     * `LoadBuses`: clears `_buses` and adds the rows the ordered query reads,
     * one by one; clearing the collection clears the grid's selection.
     */
    method LoadBuses()
      modifies `buses, `selected
      ensures buses == BusList(db.busTypes) && selected.None?
    {
      var rows := BusList(db.busTypes);
      buses := [];
      selected := None;
      var i := 0;
      while i < |rows|
        invariant 0 <= i <= |rows|
        invariant buses == rows[..i] && selected.None?
      {
        buses := buses + [rows[i]];
        i := i + 1;
      }
      assert rows[..i] == rows;
    }

    /** The user selects a row of the grid. */
    method Select(b: BusType)
      requires b in buses
      modifies `selected
      ensures selected == Some(b)
    {
      selected := Some(b);
    }

    /**
     * `AddBusButton_Click`: `dialogResult` is what the add dialog returned;
     * the list is reloaded only when it is `true`.
     */
    method AddBusButtonClick(dialogResult: Option<bool>) returns (outcome: ClickOutcome)
      modifies `buses, `selected
      ensures dialogResult == Some(true) ==> outcome == Reloaded && buses == BusList(db.busTypes) && selected.None?
      ensures dialogResult != Some(true) ==> outcome == Cancelled && buses == old(buses) && selected == old(selected)
    {
      if dialogResult == Some(true) {
        LoadBuses();
        return Reloaded;
      }
      return Cancelled;
    }

    /**
     * `EditBusButton_Click`: with no selection, nothing happens; otherwise the
     * edit dialog opens for the selected bus and `dialogResult` is what it
     * returned; the list is reloaded only when it is `true`.
     */
    method EditBusButtonClick(dialogResult: Option<bool>) returns (outcome: ClickOutcome)
      modifies `buses, `selected
      ensures old(selected).None? ==> outcome == NoSelection
      ensures outcome == Reloaded <==> old(selected).Some? && dialogResult == Some(true)
      ensures outcome == Reloaded ==> buses == BusList(db.busTypes) && selected.None?
      ensures outcome != Reloaded ==> buses == old(buses) && selected == old(selected)
    {
      if selected.None? {
        return NoSelection;
      }
      if dialogResult == Some(true) {
        LoadBuses();
        return Reloaded;
      }
      return Cancelled;
    }

    /**
     * `DeleteBusButton_Click`: with no selection, nothing happens; otherwise
     * the delete runs only after the user answered "Yes" (`confirmed`), and the
     * list is reloaded only when it succeeded.
     */
    method DeleteBusButtonClick(confirmed: bool) returns (outcome: ClickOutcome)
      requires db.Valid()
      modifies `buses, `selected, db`busTypes
      ensures db.Valid()
      ensures old(selected).None? ==> outcome == NoSelection
      ensures old(selected).Some? && !confirmed ==> outcome == Cancelled
      ensures outcome == NoSelection || outcome == Cancelled ==> db.busTypes == old(db.busTypes)
      ensures old(selected).Some? && confirmed ==>
        var id := old(selected).value.busTypeId;
        if TourUsesBus(db.tours, id) then
          outcome == DeleteFailed && db.busTypes == old(db.busTypes)
        else
          db.busTypes == RemoveBusType(old(db.busTypes), id)
          && (outcome == Reloaded <==> HasBusType(old(db.busTypes), id))
      ensures outcome == Reloaded ==> buses == BusList(db.busTypes) && selected.None?
      ensures outcome != Reloaded ==> buses == old(buses) && selected == old(selected)
    {
      if selected.None? {
        return NoSelection;
      }
      if !confirmed {
        return Cancelled;
      }
      var success := DeleteBusFromDatabase(selected.value.busTypeId);
      if success {
        LoadBuses();
        outcome := Reloaded;
      } else {
        outcome := DeleteFailed;
      }
    }

    /**
     * `DeleteBusFromDatabase`: refused while a tour uses the bus type;
     * otherwise deletes its row, true iff one existed.
     */
    method DeleteBusFromDatabase(busTypeId: int) returns (success: bool)
      requires db.Valid()
      modifies db`busTypes
      ensures db.Valid()
      ensures TourUsesBus(db.tours, busTypeId) ==> !success && db.busTypes == old(db.busTypes)
      ensures !TourUsesBus(db.tours, busTypeId) ==>
        success == HasBusType(old(db.busTypes), busTypeId) && db.busTypes == RemoveBusType(old(db.busTypes), busTypeId)
    {
      if TourUsesBus(db.tours, busTypeId) {
        return false;
      }
      RemoveBusTypeKeepsIds(db.busTypes, busTypeId, db.nextBusTypeId);
      success := HasBusType(db.busTypes, busTypeId);
      db.busTypes := RemoveBusType(db.busTypes, busTypeId);
    }
  }
}
