/** `CreateTourWindow`: the new-tour form and the insert it makes. */
module CreateTourWindows {
  import opened Wrappers
  import opened Text
  import opened Lists
  import opened Requests
  import opened Tables
  import opened Store
  import opened TourForms

  /**
   * The row the insert writes for a form that passed validation with values `v`:
   * the trimmed name and photo file name, and the ids the country and bus-type
   * lookups find.
   */
  function InsertedRow(tourId: int, f: TourForm, v: NewTour, countries: seq<CountryRow>, busTypes: seq<BusType>): TourRow
    requires f.country.Some? && f.startDate.Some? && f.busType.Some?
  {
    TourRow(tourId, v.tourCode, Trim(f.name), CountryIdOf(countries, f.country.value), v.fields.duration,
            f.startDate.value, v.fields.price, BusTypeIdOf(busTypes, f.busType.value),
            v.fields.capacity, v.fields.freeSeats, Trim(f.photoFileName), v.fields.discount)
  }

  /** What a click on "Создать" ends in. */
  datatype CreateOutcome = Invalid(error: FormError) | PhotoDeclined | Created | SaveFailed

  class CreateTourWindow {
    const db: Database
    /** The culture's decimal separator. */
    const sep: char
    var form: TourForm
    /** What `int.TryParse` and `decimal.TryParse` read from the boxes of `form`. */
    var parsed: Parsed
    const countryChoices: seq<string>
    var dialogResult: Option<bool>

    /** `parsed` is what the boxes of `form` read as. */
    ghost predicate ReadsForm()
      reads this
    {
      parsed == Parse(form, sep)
    }

    /** `LoadData`: the country and bus pickers at their first item, the start date thirty days from `now`. */
    constructor(db: Database, now: int, sep: char)
      requires db.Valid()
      ensures ReadsForm() && this.db == db && this.sep == sep
      ensures countryChoices == CountryChoices(db.countries)
      ensures form.country == FirstChoice(countryChoices)
      ensures form.busType == Some(BusTypeChoices[0])
      ensures form.startDate == Some(now + 30 * TicksPerDay)
      ensures dialogResult.None?
    {
      this.db := db;
      this.sep := sep;
      var choices := CountryChoices(db.countries);
      countryChoices := choices;
      var initial := TourForm("", "", FirstChoice(choices), "", Some(now + 30 * TicksPerDay), "", "", Some(BusTypeChoices[0]), "", "", "");
      form := initial;
      parsed := Parse(initial, sep);
      dialogResult := None;
    }

    /** The user types into the boxes and picks among the items the pickers offer. */
    method Enter(f: TourForm)
      requires f.country.Some? ==> f.country.value in countryChoices
      requires f.busType.Some? ==> f.busType.value in BusTypeChoices
      modifies `form, `parsed
      ensures ReadsForm() && form == f
    {
      form := f;
      parsed := Parse(f, sep);
    }

    /**
     * `CreateButton_Click`: the validation chain, then, for a blank photo file
     * name, the question whether to go on (`proceedWithoutPhoto` is the answer),
     * then the insert.
     */
    method CreateButtonClick(proceedWithoutPhoto: bool) returns (outcome: CreateOutcome)
      requires db.Valid()
      modifies `dialogResult, db`tours, db`nextTourId
      ensures db.Valid()
      ensures var checked := ValidateCreate(form, parsed);
        && (checked.Err? ==> outcome == Invalid(checked.error))
        && (checked.Ok? && IsBlank(form.photoFileName) && !proceedWithoutPhoto ==> outcome == PhotoDeclined)
        && (outcome == Created <==>
              checked.Ok? && (!IsBlank(form.photoFileName) || proceedWithoutPhoto) && form.startDate.Some? && form.busType.Some?)
        && (outcome == Created ==>
              db.tours == old(db.tours) + [InsertedRow(old(db.nextTourId), form, checked.value, db.countries, db.busTypes)]
              && db.nextTourId == old(db.nextTourId) + 1 && dialogResult == Some(true))
      ensures outcome != Created ==>
        db.tours == old(db.tours) && db.nextTourId == old(db.nextTourId) && dialogResult == old(dialogResult)
      ensures old(SeatsInRange(db.tours)) ==> SeatsInRange(db.tours)
    {
      var checked := ValidateCreate(form, parsed);
      if checked.Err? {
        return Invalid(checked.error);
      }
      if IsBlank(form.photoFileName) && !proceedWithoutPhoto {
        return PhotoDeclined;
      }
      var success := CreateTourInDatabase(checked.value);
      if success {
        dialogResult := Some(true);
        outcome := Created;
      } else {
        outcome := SaveFailed;
      }
    }

    /**
     * `CreateTourInDatabase`, reached only after the validation passed, with the
     * values it read (`int.Parse` and `decimal.Parse` of the same text give
     * them again): inserts the row. An empty bus-type picker or date picker
     * makes `SelectedItem.ToString()` or `SelectedDate.Value` throw, which ends
     * in `false` with nothing written.
     */
    method CreateTourInDatabase(v: NewTour) returns (success: bool)
      requires db.Valid() && InRange(v.fields) && form.country.Some?
      modifies db`tours, db`nextTourId
      ensures db.Valid()
      ensures success <==> form.startDate.Some? && form.busType.Some?
      ensures success ==>
        db.tours == old(db.tours) + [InsertedRow(old(db.nextTourId), form, v, db.countries, db.busTypes)]
        && db.nextTourId == old(db.nextTourId) + 1
      ensures !success ==> db.tours == old(db.tours) && db.nextTourId == old(db.nextTourId)
      ensures old(SeatsInRange(db.tours)) ==> SeatsInRange(db.tours)
    {
      if form.busType.None? || form.startDate.None? {
        return false;
      }
      var row := InsertedRow(db.nextTourId, form, v, db.countries, db.busTypes);
      AppendKeepsIdsBelow(db.tours, db.nextTourId, row);
      db.tours := db.tours + [row];
      db.nextTourId := db.nextTourId + 1;
      success := true;
    }
  }

  /** Appending a row with the next identity value keeps the ids below the counter, and a row in range keeps the seats in range. */
  lemma AppendKeepsIdsBelow(tours: seq<TourRow>, nextId: int, row: TourRow)
    requires IdsBelow(tours, nextId) && row.tourId == nextId
    ensures IdsBelow(tours + [row], nextId + 1)
    ensures SeatsInRange(tours) && 0 <= row.freeSeats <= row.capacity ==> SeatsInRange(tours + [row])
  {
  }
}
