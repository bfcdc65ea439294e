/** `AddEditBusWindow`: the bus-type form, which adds a row or updates the one it was opened for. */
module AddEditBusWindows {
  import opened Wrappers
  import opened Text
  import opened Tables
  import opened Store

  /** The checks of `SaveButton_Click`, in order. */
  datatype BusFormError = TypeNameMissing | BadCapacity

  /**
   * The validation of `SaveButton_Click`: a type name that is not blank, then
   * a capacity that `int.TryParse` reads as a positive number.
   */
  function ValidateBus(typeName: string, capacityText: string): (r: Result<int, BusFormError>)
    ensures r == Err(TypeNameMissing) <==> IsBlank(typeName)
    ensures r == Err(BadCapacity) <==>
      !IsBlank(typeName) && (TryParseInt32(capacityText).None? || TryParseInt32(capacityText).value <= 0)
    ensures r.Ok? ==> r.value > 0 && TryParseInt32(capacityText) == Some(r.value)
  {
    if IsBlank(typeName) then Err(TypeNameMissing)
    else
      var capacity := TryParseInt32(capacityText);
      if capacity.None? || capacity.value <= 0 then Err(BadCapacity)
      else Ok(capacity.value)
  }

  /** The form filled from bus `b` passes the validation as it stands, with `b`'s capacity. */
  lemma PrefilledBusValidates(b: BusType)
    requires !IsBlank(b.typeName) && 0 < b.capacity && IsInt32(b.capacity)
    ensures ValidateBus(b.typeName, IntToString(b.capacity)) == Ok(b.capacity)
  {
    ParseIntToString(b.capacity);
  }

  /** Adding rows with the next identity value and updating rows in place keep the ids below the counter. */
  lemma BusWritesKeepIds(busTypes: seq<BusType>, nextId: int, busTypeId: int, typeName: string, capacity: int, description: string)
    requires BusIdsBelow(busTypes, nextId)
    ensures BusIdsBelow(busTypes + [BusType(nextId, typeName, capacity, description)], nextId + 1)
    ensures BusIdsBelow(UpdateBusRows(busTypes, busTypeId, typeName, capacity, description), nextId)
  {
  }

  /** The row with that id, when there is one, is the only one an update changes. */
  lemma UpdateBusRowsTargetsOne(busTypes: seq<BusType>, busTypeId: int, typeName: string, capacity: int, description: string)
    ensures !HasBusType(busTypes, busTypeId) ==> UpdateBusRows(busTypes, busTypeId, typeName, capacity, description) == busTypes
    ensures HasBusType(busTypes, busTypeId) ==>
      BusType(busTypeId, typeName, capacity, description) in UpdateBusRows(busTypes, busTypeId, typeName, capacity, description)
  {
    var r := UpdateBusRows(busTypes, busTypeId, typeName, capacity, description);
    if HasBusType(busTypes, busTypeId) {
      var i :| 0 <= i < |busTypes| && busTypes[i].busTypeId == busTypeId;
      assert r[i] == BusType(busTypeId, typeName, capacity, description);
    } else {
      assert r == busTypes;
    }
  }

  /** What a click on "Сохранить" ends in. */
  datatype BusSaveOutcome = Invalid(error: BusFormError) | Saved | SaveFailed

  class AddEditBusWindow {
    const db: Database
    /** The bus the window was opened for, `None` for a new one. */
    const bus: Option<BusType>
    const isEditMode: bool
    var typeName: string
    var capacityText: string
    var description: string
    var dialogResult: Option<bool>

    /** The constructor and `InitializeWindow`: in edit mode the boxes show the bus's values. */
    constructor(db: Database, bus: Option<BusType>)
      ensures this.db == db && this.bus == bus && (isEditMode <==> bus.Some?)
      ensures bus.Some? ==>
        typeName == bus.value.typeName && capacityText == IntToString(bus.value.capacity) && description == bus.value.description
      ensures bus.None? ==> typeName == "" && capacityText == "" && description == ""
      ensures dialogResult.None?
    {
      this.db := db;
      this.bus := bus;
      isEditMode := bus.Some?;
      if bus.Some? {
        typeName := bus.value.typeName;
        capacityText := IntToString(bus.value.capacity);
        description := bus.value.description;
      } else {
        typeName := "";
        capacityText := "";
        description := "";
      }
      dialogResult := None;
    }

    /** The user types into the boxes. */
    method Enter(typeName: string, capacityText: string, description: string)
      modifies `typeName, `capacityText, `description
      ensures this.typeName == typeName && this.capacityText == capacityText && this.description == description
    {
      this.typeName := typeName;
      this.capacityText := capacityText;
      this.description := description;
    }

    /** `SaveButton_Click`: the validation, then the insert or the update, and `DialogResult = true` when it wrote a row. */
    method SaveButtonClick() returns (outcome: BusSaveOutcome)
      requires db.Valid() && isEditMode == bus.Some?
      modifies `dialogResult, db`busTypes, db`nextBusTypeId
      ensures db.Valid()
      ensures var checked := ValidateBus(typeName, capacityText);
        && (checked.Err? ==>
              outcome == Invalid(checked.error) && db.busTypes == old(db.busTypes) && db.nextBusTypeId == old(db.nextBusTypeId))
        && (checked.Ok? && bus.None? ==>
              outcome == Saved
              && db.busTypes == old(db.busTypes) + [BusType(old(db.nextBusTypeId), Trim(typeName), checked.value, Trim(description))]
              && db.nextBusTypeId == old(db.nextBusTypeId) + 1)
        && (checked.Ok? && bus.Some? ==>
              (outcome == Saved <==> HasBusType(old(db.busTypes), bus.value.busTypeId))
              && db.busTypes == UpdateBusRows(old(db.busTypes), bus.value.busTypeId, Trim(typeName), checked.value, Trim(description))
              && db.nextBusTypeId == old(db.nextBusTypeId))
      ensures outcome == Saved ==> dialogResult == Some(true)
      ensures outcome != Saved ==> dialogResult == old(dialogResult)
    {
      var checked := ValidateBus(typeName, capacityText);
      if checked.Err? {
        return Invalid(checked.error);
      }
      var success;
      if isEditMode {
        success := UpdateBusInDatabase(checked.value);
      } else {
        success := AddBusToDatabase(checked.value);
      }
      if success {
        dialogResult := Some(true);
        outcome := Saved;
      } else {
        outcome := SaveFailed;
      }
    }

    /**
     * `AddBusToDatabase`, reached only after the validation passed with
     * `capacity` (`int.Parse` of the same text gives it again): inserts the
     * trimmed name and description under the next identity value.
     */
    method AddBusToDatabase(capacity: int) returns (success: bool)
      requires db.Valid()
      modifies db`busTypes, db`nextBusTypeId
      ensures db.Valid() && success
      ensures db.busTypes == old(db.busTypes) + [BusType(old(db.nextBusTypeId), Trim(typeName), capacity, Trim(description))]
      ensures db.nextBusTypeId == old(db.nextBusTypeId) + 1
    {
      var row := BusType(db.nextBusTypeId, Trim(typeName), capacity, Trim(description));
      BusWritesKeepIds(db.busTypes, db.nextBusTypeId, db.nextBusTypeId, row.typeName, capacity, row.description);
      db.busTypes := db.busTypes + [row];
      db.nextBusTypeId := db.nextBusTypeId + 1;
      success := true;
    }

    /**
     * `UpdateBusInDatabase`, reached only in edit mode after the validation
     * passed: `UPDATE … WHERE BusTypeID = _bus.BusTypeID`, true iff a row was affected.
     */
    method UpdateBusInDatabase(capacity: int) returns (success: bool)
      requires db.Valid() && bus.Some?
      modifies db`busTypes
      ensures db.Valid()
      ensures success == HasBusType(old(db.busTypes), bus.value.busTypeId)
      ensures db.busTypes == UpdateBusRows(old(db.busTypes), bus.value.busTypeId, Trim(typeName), capacity, Trim(description))
    {
      var id := bus.value.busTypeId;
      BusWritesKeepIds(db.busTypes, db.nextBusTypeId, id, Trim(typeName), capacity, Trim(description));
      success := HasBusType(db.busTypes, id);
      db.busTypes := UpdateBusRows(db.busTypes, id, Trim(typeName), capacity, Trim(description));
    }
  }
}
