/**
 * The tour form shared by the create and edit screens, and their validation
 * chains: each check in turn, the first failure stops the chain. Decimal
 * fields are read with `decimal.TryParse` for a culture whose decimal
 * separator is `sep`.
 */
module TourForms {
  import opened Wrappers
  import opened Text
  import opened Lists
  import opened Requests
  import opened Tables

  /** The bus types both tour screens offer. */
  const BusTypeChoices: seq<string> := ["Стандарт", "Комфорт", "Люкс", "Минивэн", "Двухэтажный"]

  /** The countries the form offers: those of `GetCountries` without "Все". */
  function CountryChoices(countries: seq<CountryRow>): (r: seq<string>)
    ensures forall name :: name in r <==> name != FilterAll && exists i :: 0 <= i < |countries| && countries[i].countryName == name
  {
    var all := CountryList(countries);
    var r := Filter(all, (c: string) => c != FilterAll);
    forall name ensures name in r <==> name != FilterAll && name in all[1..] {
      if name in r {
        var i :| 0 <= i < |r| && r[i] == name;
        var j :| 0 <= j < |all| && all[j] == name;
        assert j != 0 && all[1..][j - 1] == name;
      }
      if name != FilterAll && name in all[1..] {
        var j :| 0 <= j < |all[1..]| && all[1..][j] == name;
        assert all[j + 1] == name;
      }
    }
    r
  }

  /** The picker's first item, or no selection when it has none (`SelectedIndex = 0`). */
  function FirstChoice(choices: seq<string>): (r: Option<string>)
    ensures r.Some? <==> choices != []
    ensures r.Some? ==> r.value in choices
  {
    if choices == [] then None else Some(choices[0])
  }

  /**
   * `SelectedItem = wanted` when the picker holds it, else `SelectedIndex = 0`
   * (no selection when the picker is empty).
   */
  function Selection(choices: seq<string>, wanted: string): (r: Option<string>)
    ensures wanted in choices ==> r == Some(wanted)
    ensures wanted !in choices ==> r == FirstChoice(choices)
  {
    if wanted in choices then Some(wanted) else FirstChoice(choices)
  }

  /** The text boxes, selections and date picker of a tour form. */
  datatype TourForm = TourForm(
    name: string, tourCode: string, country: Option<string>, duration: string,
    startDate: Option<int>, price: string, discount: string, busType: Option<string>,
    capacity: string, freeSeats: string, photoFileName: string)

  /** The checks, in the order the screens make them. */
  datatype FormError =
    | NameMissing | BadTourCode | CountryMissing | BadDuration | BadPrice
    | BadDiscount | BadCapacity | BadFreeSeats | FreeSeatsOverCapacity

  function Rank(e: FormError): nat {
    match e
    case NameMissing => 0
    case BadTourCode => 1
    case CountryMissing => 2
    case BadDuration => 3
    case BadPrice => 4
    case BadDiscount => 5
    case BadCapacity => 6
    case BadFreeSeats => 7
    case FreeSeatsOverCapacity => 8
  }

  /** The numeric text boxes as `int.TryParse` and `decimal.TryParse` read them. */
  datatype Parsed = Parsed(
    tourCode: Option<int>, duration: Option<int>, price: Option<real>,
    discount: Option<real>, capacity: Option<int>, freeSeats: Option<int>)

  /** Each numeric text box is read on its own: integers with `int.TryParse`, price and discount with `decimal.TryParse`. */
  function Parse(f: TourForm, sep: char): (p: Parsed)
    ensures p.tourCode == TryParseInt32(f.tourCode) && p.duration == TryParseInt32(f.duration)
    ensures p.capacity == TryParseInt32(f.capacity) && p.freeSeats == TryParseInt32(f.freeSeats)
    ensures p.price == TryParseDecimal(f.price, sep) && p.discount == TryParseDecimal(f.discount, sep)
    ensures p.tourCode.Some? ==> IsInt32(p.tourCode.value)
  {
    Parsed(TryParseInt32(f.tourCode), TryParseInt32(f.duration), TryParseDecimal(f.price, sep),
           TryParseDecimal(f.discount, sep), TryParseInt32(f.capacity), TryParseInt32(f.freeSeats))
  }

  /** Whether the form, with its numbers read as `p`, passes check `e` on its own. */
  predicate Passes(f: TourForm, p: Parsed, e: FormError) {
    match e
    case NameMissing => !IsBlank(f.name)
    case BadTourCode => p.tourCode.Some?
    case CountryMissing => f.country.Some?
    case BadDuration => p.duration.Some? && p.duration.value > 0
    case BadPrice => p.price.Some? && p.price.value > 0.0
    case BadDiscount => p.discount.Some? && 0.0 <= p.discount.value <= 100.0
    case BadCapacity => p.capacity.Some? && p.capacity.value > 0
    case BadFreeSeats => p.freeSeats.Some? && p.freeSeats.value >= 0
    case FreeSeatsOverCapacity =>
      !(p.freeSeats.Some? && p.capacity.Some? && p.freeSeats.value > p.capacity.value)
  }

  /** The parsed values of a form that passed the checks both screens share. */
  datatype TourFields = TourFields(duration: int, price: real, discount: real, capacity: int, freeSeats: int)

  predicate InRange(v: TourFields) {
    v.duration > 0 && v.price > 0.0 && 0.0 <= v.discount <= 100.0 && v.capacity > 0 && 0 <= v.freeSeats <= v.capacity
  }

  /** `SaveButton_Click` of the edit screen, over the numbers `p` read from the form: the chain without the tour-code check. */
  function ValidateEdit(f: TourForm, p: Parsed): (r: Result<TourFields, FormError>)
    ensures r.Ok? ==> InRange(r.value)
    ensures r.Err? ==> r.error != BadTourCode
  {
    if IsBlank(f.name) then Err(NameMissing)
    else if f.country.None? then Err(CountryMissing)
    else if p.duration.None? || p.duration.value <= 0 then Err(BadDuration)
    else if p.price.None? || p.price.value <= 0.0 then Err(BadPrice)
    else if p.discount.None? || p.discount.value < 0.0 || p.discount.value > 100.0 then Err(BadDiscount)
    else if p.capacity.None? || p.capacity.value <= 0 then Err(BadCapacity)
    else if p.freeSeats.None? || p.freeSeats.value < 0 then Err(BadFreeSeats)
    else if p.freeSeats.value > p.capacity.value then Err(FreeSeatsOverCapacity)
    else Ok(TourFields(p.duration.value, p.price.value, p.discount.value, p.capacity.value, p.freeSeats.value))
  }

  /** A form the create screen accepted: its tour code and the shared fields. */
  datatype NewTour = NewTour(tourCode: int, fields: TourFields)

  /** `CreateButton_Click` of the create screen, over the numbers `p` read from the form: the full chain, tour code second. */
  function ValidateCreate(f: TourForm, p: Parsed): (r: Result<NewTour, FormError>)
    ensures r.Ok? ==> InRange(r.value.fields) && p.tourCode == Some(r.value.tourCode)
  {
    if IsBlank(f.name) then Err(NameMissing)
    else if p.tourCode.None? then Err(BadTourCode)
    else if f.country.None? then Err(CountryMissing)
    else if p.duration.None? || p.duration.value <= 0 then Err(BadDuration)
    else if p.price.None? || p.price.value <= 0.0 then Err(BadPrice)
    else if p.discount.None? || p.discount.value < 0.0 || p.discount.value > 100.0 then Err(BadDiscount)
    else if p.capacity.None? || p.capacity.value <= 0 then Err(BadCapacity)
    else if p.freeSeats.None? || p.freeSeats.value < 0 then Err(BadFreeSeats)
    else if p.freeSeats.value > p.capacity.value then Err(FreeSeatsOverCapacity)
    else Ok(NewTour(p.tourCode.value, TourFields(p.duration.value, p.price.value, p.discount.value, p.capacity.value, p.freeSeats.value)))
  }

  /** The create chain reports the first check that fails, and accepts exactly the forms that pass every check. */
  lemma ValidateCreateFirstFailure(f: TourForm, p: Parsed)
    ensures ValidateCreate(f, p).Err? ==>
      !Passes(f, p, ValidateCreate(f, p).error)
      && forall e :: Rank(e) < Rank(ValidateCreate(f, p).error) ==> Passes(f, p, e)
    ensures ValidateCreate(f, p).Ok? <==> forall e :: Passes(f, p, e)
  {
    var r := ValidateCreate(f, p);
    if r.Ok? {
      forall e ensures Passes(f, p, e) {
        match e
        case NameMissing =>
        case BadTourCode =>
        case CountryMissing =>
        case BadDuration =>
        case BadPrice =>
        case BadDiscount =>
        case BadCapacity =>
        case BadFreeSeats =>
        case FreeSeatsOverCapacity =>
      }
    } else {
      assert !Passes(f, p, r.error);
    }
  }

  /** The edit chain reports the first failing check other than the tour code, and accepts exactly the forms that pass all others. */
  lemma ValidateEditFirstFailure(f: TourForm, p: Parsed)
    ensures ValidateEdit(f, p).Err? ==>
      !Passes(f, p, ValidateEdit(f, p).error)
      && forall e :: e != BadTourCode && Rank(e) < Rank(ValidateEdit(f, p).error) ==> Passes(f, p, e)
    ensures ValidateEdit(f, p).Ok? <==> forall e :: e != BadTourCode ==> Passes(f, p, e)
  {
    var r := ValidateEdit(f, p);
    if r.Ok? {
      forall e | e != BadTourCode ensures Passes(f, p, e) {
        match e
        case NameMissing =>
        case BadTourCode =>
        case CountryMissing =>
        case BadDuration =>
        case BadPrice =>
        case BadDiscount =>
        case BadCapacity =>
        case BadFreeSeats =>
        case FreeSeatsOverCapacity =>
      }
    } else {
      assert !Passes(f, p, r.error);
    }
  }

  /** With a well-formed tour code, the two screens accept the same forms, with the same values, and report the same failure. */
  lemma EditMatchesCreate(f: TourForm, p: Parsed)
    ensures p.tourCode.Some? ==>
      ValidateCreate(f, p) == match ValidateEdit(f, p)
        case Ok(v) => Ok(NewTour(p.tourCode.value, v))
        case Err(e) => Err(e)
    ensures p.tourCode.None? && !IsBlank(f.name) ==> ValidateCreate(f, p) == Err(BadTourCode)
  {
  }
}
