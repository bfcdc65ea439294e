/** `EditTourWindow`: the tour editor, filled from a `Tour`, and the update it makes. */
module EditTourWindows {
  import opened Wrappers
  import opened Text
  import opened Tours
  import opened Tables
  import opened Store
  import opened TourForms

  /**
   * `FillForm`: the boxes show the tour's values, with `int.ToString` for the
   * integers and `render` (the culture's `decimal.ToString`) for price and
   * discount; each picker selects the tour's item when it holds it.
   */
  function FilledForm(t: Tour, countryChoices: seq<string>, render: real -> string): TourForm {
    TourForm(t.name, IntToString(t.tourCode), Selection(countryChoices, t.country), IntToString(t.durationDays),
             Some(t.startDate), render(t.price), render(t.discount), Selection(BusTypeChoices, t.busType),
             IntToString(t.capacity), IntToString(t.freeSeats), OrElse(t.photoFileName, ""))
  }

  /** The tour's numbers are those a valid form could hold. */
  predicate StorableTour(t: Tour) {
    IsInt32(t.tourCode) && IsInt32(t.durationDays) && IsInt32(t.capacity) && IsInt32(t.freeSeats)
    && InRange(TourFields(t.durationDays, t.price, t.discount, t.capacity, t.freeSeats))
  }

  /** The boxes of the filled form read back as the tour's own numbers. */
  lemma FilledFormParses(t: Tour, countryChoices: seq<string>, render: real -> string, sep: char)
    requires IsInt32(t.tourCode) && IsInt32(t.durationDays) && IsInt32(t.capacity) && IsInt32(t.freeSeats)
    requires TryParseDecimal(render(t.price), sep) == Some(t.price)
    requires TryParseDecimal(render(t.discount), sep) == Some(t.discount)
    ensures Parse(FilledForm(t, countryChoices, render), sep)
      == Parsed(Some(t.tourCode), Some(t.durationDays), Some(t.price), Some(t.discount), Some(t.capacity), Some(t.freeSeats))
  {
    ParseIntToString(t.tourCode);
    ParseIntToString(t.durationDays);
    ParseIntToString(t.capacity);
    ParseIntToString(t.freeSeats);
  }

  /**
   * Saving the filled form unchanged passes the validation and writes the
   * tour's own values back, provided `decimal.TryParse` reads what
   * `decimal.ToString` wrote and the country is among the choices.
   */
  lemma FilledFormRoundTrip(t: Tour, countryChoices: seq<string>, render: real -> string, sep: char)
    requires !IsBlank(t.name) && t.country in countryChoices && StorableTour(t)
    requires TryParseDecimal(render(t.price), sep) == Some(t.price)
    requires TryParseDecimal(render(t.discount), sep) == Some(t.discount)
    ensures ValidateEdit(FilledForm(t, countryChoices, render), Parse(FilledForm(t, countryChoices, render), sep))
      == Ok(TourFields(t.durationDays, t.price, t.discount, t.capacity, t.freeSeats))
    ensures FilledForm(t, countryChoices, render).country == Some(t.country)
  {
    var f := FilledForm(t, countryChoices, render);
    FilledFormParses(t, countryChoices, render, sep);
    ValidateEditAccepts(f, Parse(f, sep), t);
  }

  /** A tour whose free seats exceed its capacity cannot be saved unchanged: validation stops at that check. */
  lemma FilledFormOverbooked(t: Tour, countryChoices: seq<string>, render: real -> string, sep: char)
    requires !IsBlank(t.name) && t.country in countryChoices
    requires IsInt32(t.tourCode) && IsInt32(t.durationDays) && IsInt32(t.capacity) && IsInt32(t.freeSeats)
    requires t.durationDays > 0 && t.price > 0.0 && 0.0 <= t.discount <= 100.0 && t.capacity > 0 && t.freeSeats > t.capacity
    requires TryParseDecimal(render(t.price), sep) == Some(t.price)
    requires TryParseDecimal(render(t.discount), sep) == Some(t.discount)
    ensures ValidateEdit(FilledForm(t, countryChoices, render), Parse(FilledForm(t, countryChoices, render), sep))
      == Err(FreeSeatsOverCapacity)
  {
    var f := FilledForm(t, countryChoices, render);
    FilledFormParses(t, countryChoices, render, sep);
    ValidateEditOverbooked(f, Parse(f, sep), t);
  }

  /** The edit chain on a form that reads as tour `t`'s numbers. */
  lemma ValidateEditAccepts(f: TourForm, p: Parsed, t: Tour)
    requires !IsBlank(f.name) && f.country.Some? && StorableTour(t)
    requires p == Parsed(Some(t.tourCode), Some(t.durationDays), Some(t.price), Some(t.discount), Some(t.capacity), Some(t.freeSeats))
    ensures ValidateEdit(f, p) == Ok(TourFields(t.durationDays, t.price, t.discount, t.capacity, t.freeSeats))
  {
  }

  lemma ValidateEditOverbooked(f: TourForm, p: Parsed, t: Tour)
    requires !IsBlank(f.name) && f.country.Some?
    requires t.durationDays > 0 && t.price > 0.0 && 0.0 <= t.discount <= 100.0 && t.capacity > 0 && t.freeSeats > t.capacity
    requires p == Parsed(Some(t.tourCode), Some(t.durationDays), Some(t.price), Some(t.discount), Some(t.capacity), Some(t.freeSeats))
    ensures ValidateEdit(f, p) == Err(FreeSeatsOverCapacity)
  {
  }

  /** The columns the update writes for a form that passed validation with values `v`. */
  function EditOf(f: TourForm, v: TourFields, countries: seq<CountryRow>, busTypes: seq<BusType>): TourEdit
    requires f.country.Some? && f.startDate.Some? && f.busType.Some?
  {
    TourEdit(Trim(f.name), CountryIdOf(countries, f.country.value), v.duration, f.startDate.value, v.price,
             BusTypeIdOf(busTypes, f.busType.value), v.capacity, v.freeSeats, Trim(f.photoFileName), v.discount)
  }

  /** An update with values in range keeps every tour's seats in range, and every id. */
  lemma UpdateKeepsTables(tours: seq<TourRow>, tourId: int, e: TourEdit, nextId: int)
    requires 0 <= e.freeSeats <= e.capacity
    ensures SeatsInRange(tours) ==> SeatsInRange(UpdateTourRows(tours, tourId, e))
    ensures IdsBelow(tours, nextId) ==> IdsBelow(UpdateTourRows(tours, tourId, e), nextId)
  {
    UpdateTourRowsEffect(tours, tourId, e);
  }

  /** What a click on "Сохранить" ends in. */
  datatype SaveOutcome = Invalid(error: FormError) | Saved | SaveFailed

  class EditTourWindow {
    const db: Database
    /** The culture's decimal separator. */
    const sep: char
    /** The tour the window was opened for. */
    const original: Tour
    const countryChoices: seq<string>
    var form: TourForm
    /** What `int.TryParse` and `decimal.TryParse` read from the boxes of `form`. */
    var parsed: Parsed
    var dialogResult: Option<bool>

    /** `parsed` is what the boxes of `form` read as. */
    ghost predicate ReadsForm()
      reads this
    {
      parsed == Parse(form, sep)
    }

    /** `LoadData` and `FillForm`. */
    constructor(db: Database, tour: Tour, sep: char, render: real -> string)
      requires db.Valid()
      ensures ReadsForm() && this.db == db && this.sep == sep && original == tour
      ensures countryChoices == CountryChoices(db.countries)
      ensures form == FilledForm(tour, countryChoices, render)
      ensures dialogResult.None?
    {
      this.db := db;
      this.sep := sep;
      original := tour;
      var choices := CountryChoices(db.countries);
      countryChoices := choices;
      var filled := FilledForm(tour, choices, render);
      form := filled;
      parsed := Parse(filled, sep);
      dialogResult := None;
    }

    /** The user types into the boxes and picks among the items the pickers offer. */
    method Enter(f: TourForm)
      requires f.country.Some? ==> f.country.value in countryChoices
      requires f.busType.Some? ==> f.busType.value in BusTypeChoices
      modifies `form, `parsed
      ensures ReadsForm() && form == f
    {
      form := f;
      parsed := Parse(f, sep);
    }

    /**
     * `SaveButton_Click`: the validation chain, then the update of the row with
     * the original tour's id; the tour code box is not written.
     */
    method SaveButtonClick() returns (outcome: SaveOutcome)
      requires db.Valid()
      modifies `dialogResult, db`tours
      ensures db.Valid()
      ensures var checked := ValidateEdit(form, parsed);
        && (checked.Err? ==> outcome == Invalid(checked.error))
        && (outcome == Saved <==>
              checked.Ok? && form.startDate.Some? && form.busType.Some? && HasTour(old(db.tours), original.id))
        && (checked.Ok? && form.startDate.Some? && form.busType.Some? ==>
              db.tours == UpdateTourRows(old(db.tours), original.id, EditOf(form, checked.value, db.countries, db.busTypes)))
      ensures outcome == Saved ==> dialogResult == Some(true)
      ensures outcome != Saved ==> dialogResult == old(dialogResult)
      ensures outcome.Invalid? ==> db.tours == old(db.tours)
      ensures form.startDate.None? || form.busType.None? ==> db.tours == old(db.tours)
      ensures old(SeatsInRange(db.tours)) ==> SeatsInRange(db.tours)
    {
      var checked := ValidateEdit(form, parsed);
      if checked.Err? {
        return Invalid(checked.error);
      }
      var success := UpdateTourInDatabase(checked.value);
      if success {
        dialogResult := Some(true);
        outcome := Saved;
      } else {
        outcome := SaveFailed;
      }
    }

    /**
     * `UpdateTourInDatabase`, reached only after the validation passed, with the
     * values it read: `UPDATE … WHERE TourID = original.Id`, true iff a row was
     * affected. An empty bus-type or date picker throws, which ends in `false`
     * with nothing written.
     */
    method UpdateTourInDatabase(v: TourFields) returns (success: bool)
      requires db.Valid() && InRange(v) && form.country.Some?
      modifies db`tours
      ensures db.Valid()
      ensures success <==> form.startDate.Some? && form.busType.Some? && HasTour(old(db.tours), original.id)
      ensures form.startDate.Some? && form.busType.Some? ==>
        db.tours == UpdateTourRows(old(db.tours), original.id, EditOf(form, v, db.countries, db.busTypes))
      ensures form.startDate.None? || form.busType.None? ==> db.tours == old(db.tours)
      ensures old(SeatsInRange(db.tours)) ==> SeatsInRange(db.tours)
    {
      if form.busType.None? || form.startDate.None? {
        return false;
      }
      var e := EditOf(form, v, db.countries, db.busTypes);
      UpdateKeepsTables(db.tours, original.id, e, db.nextTourId);
      success := HasTour(db.tours, original.id);
      db.tours := UpdateTourRows(db.tours, original.id, e);
    }
  }
}
