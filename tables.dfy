/**
 * The database tables as rows, and the meaning of each query that
 * `SqlDatabaseService` and the windows send, as functions of the tables.
 * SQL text comparisons (`=`, `LIKE`) are ordinal here.
 */
module Tables {
  import opened Wrappers
  import opened Text
  import opened Lists
  import opened Sorting
  import opened Users
  import opened Tours
  import opened Requests
  import opened RequestCodes
  import opened SqlLike

  // ---------------------------------------------------------------------
  // Rows

  /** A row of `Users`; `role` is `None` for a NULL role. */
  datatype UserRow = UserRow(userId: int, role: Option<string>, fullName: string, login: string, password: string)

  datatype CountryRow = CountryRow(countryId: int, countryName: string)

  /** A row of `BusTypes`, which is also the `BusType` object the bus screens show. */
  datatype BusType = BusType(busTypeId: int, typeName: string, capacity: int, description: string)

  datatype TourRow = TourRow(
    tourId: int, tourCode: int, tourName: string, countryId: int, durationDays: int,
    startDate: int, price: real, busTypeId: int, capacity: int, freeSeats: int,
    photoFileName: string, discount: real)

  /** A row of `Requests`; `status` is `None` for a NULL status. */
  datatype RequestRow = RequestRow(
    requestId: int, requestCode: int, tourId: int, clientId: int, requestDate: int,
    status: Option<string>, peopleCount: int, totalPrice: real, comment: string)

  /** Ticks in a day, for `DateTime.AddDays`. */
  const TicksPerDay: int := 864_000_000_000

  // ---------------------------------------------------------------------
  // Authentication

  const ValidRoles: seq<string> := [ClientRole, ManagerRole, AdminRole]

  /** A NULL or unknown stored role becomes the client role. */
  function NormaliseRole(role: Option<string>): (r: string)
    ensures r in ValidRoles
  {
    var name := if role.Some? then role.value else "";
    if name in ValidRoles then name else ClientRole
  }

  lemma NormaliseRoleKeepsValid(role: Option<string>)
    ensures role.Some? && role.value in ValidRoles ==> NormaliseRole(role) == role.value
    ensures !(role.Some? && role.value in ValidRoles) ==> NormaliseRole(role) == ClientRole
  {
  }

  predicate Credentials(u: UserRow, login: string, password: string) {
    u.login == login && u.password == password
  }

  /** `Authenticate`: the first user with that login and password, with the role normalised. */
  function Authenticate(users: seq<UserRow>, login: string, password: string): (r: Option<User>)
    ensures r.None? <==> forall i :: 0 <= i < |users| ==> !Credentials(users[i], login, password)
    ensures r.Some? ==>
      exists i :: 0 <= i < |users| && Credentials(users[i], login, password)
        && r.value == User(users[i].userId, NormaliseRole(users[i].role), users[i].fullName, login, password)
  {
    match FirstIndex(users, u => Credentials(u, login, password))
    case None => None
    case Some(i) =>
      var u := users[i];
      Some(User(u.userId, NormaliseRole(u.role), u.fullName, u.login, u.password))
  }

  /** Every authenticated user holds exactly one of the three roles. */
  lemma AuthenticatedRoleKnown(users: seq<UserRow>, login: string, password: string)
    requires Authenticate(users, login, password).Some?
    ensures Authenticate(users, login, password).value.HasKnownRole()
  {
    var u := Authenticate(users, login, password).value;
    assert u.role in ValidRoles;
  }

  // ---------------------------------------------------------------------
  // Booking

  /** `SELECT UserID FROM Users WHERE FullName = @clientName`, first row. */
  function ClientIdByName(users: seq<UserRow>, name: string): (r: Option<int>)
    ensures r.None? <==> forall i :: 0 <= i < |users| ==> users[i].fullName != name
    ensures r.Some? ==> exists i :: 0 <= i < |users| && users[i].fullName == name && users[i].userId == r.value
  {
    match FirstIndex(users, (u: UserRow) => u.fullName == name)
    case None => None
    case Some(i) => Some(users[i].userId)
  }

  /** What the booking reads of a tour: free seats, price and discount; zeros when there is no such tour. */
  datatype SeatOffer = SeatOffer(freeSeats: int, price: real, discount: real)

  function SeatOfferOf(tours: seq<TourRow>, tourId: int): (r: SeatOffer)
    ensures (forall i :: 0 <= i < |tours| ==> tours[i].tourId != tourId) ==> r == SeatOffer(0, 0.0, 0.0)
    ensures (exists i :: 0 <= i < |tours| && tours[i].tourId == tourId) ==>
      exists i :: 0 <= i < |tours| && tours[i].tourId == tourId
        && r == SeatOffer(tours[i].freeSeats, tours[i].price, tours[i].discount)
  {
    match FirstIndex(tours, (t: TourRow) => t.tourId == tourId)
    case None => SeatOffer(0, 0.0, 0.0)
    case Some(i) => SeatOffer(tours[i].freeSeats, tours[i].price, tours[i].discount)
  }

  /** The price after a percentage discount; a discount of zero or less leaves the price. */
  function DiscountedPrice(price: real, discount: real): (r: real)
    ensures discount <= 0.0 ==> r == price
    ensures 0.0 <= price && discount <= 100.0 ==> 0.0 <= r <= price
    ensures 0.0 <= price && 0.0 < discount ==> r <= price
  {
    if discount > 0.0 then
      var factor := 1.0 - discount / 100.0;
      assert price * factor == price - price * discount / 100.0;
      price * factor
    else price
  }

  lemma DiscountExamples()
    ensures DiscountedPrice(1000.0, 10.0) == 900.0
    ensures DiscountedPrice(85000.0, 0.0) == 85000.0
    ensures DiscountedPrice(78300.0, 20.0) == 62640.0
  {
  }

  /**
   * `UPDATE Tours SET FreeSeats = FreeSeats - 1 WHERE TourID = @tourId`: the
   * matching rows lose one free seat and every other row and column stays.
   */
  function TakeSeat(tours: seq<TourRow>, tourId: int): (r: seq<TourRow>)
    ensures |r| == |tours|
    ensures forall i :: 0 <= i < |tours| && tours[i].tourId == tourId ==> r[i] == tours[i].(freeSeats := tours[i].freeSeats - 1)
    ensures forall i :: 0 <= i < |tours| && tours[i].tourId != tourId ==> r[i] == tours[i]
  {
    Map(tours, (t: TourRow) => if t.tourId == tourId then t.(freeSeats := t.freeSeats - 1) else t)
  }

  /** Every tour has between none and all of its seats free. */
  predicate SeatsInRange(tours: seq<TourRow>) {
    forall i :: 0 <= i < |tours| ==> 0 <= tours[i].freeSeats <= tours[i].capacity
  }

  predicate UniqueTourIds(tours: seq<TourRow>) {
    forall i, j :: 0 <= i < j < |tours| ==> tours[i].tourId != tours[j].tourId
  }

  /** A booking that passed the free-seats check keeps every tour's seats in range. */
  lemma TakeSeatKeepsSeatsInRange(tours: seq<TourRow>, tourId: int)
    requires SeatsInRange(tours) && UniqueTourIds(tours)
    requires SeatOfferOf(tours, tourId).freeSeats > 0
    ensures SeatsInRange(TakeSeat(tours, tourId))
  {
    var r := TakeSeat(tours, tourId);
    assert exists i :: 0 <= i < |tours| && tours[i].tourId == tourId;
    var k :| 0 <= k < |tours| && tours[k].tourId == tourId
      && SeatOfferOf(tours, tourId) == SeatOffer(tours[k].freeSeats, tours[k].price, tours[k].discount);
    assert forall i :: 0 <= i < |tours| && tours[i].tourId == tourId ==> i == k;
  }

  /** The request codes in use. */
  function CodesOf(requests: seq<RequestRow>): seq<int> {
    Map(requests, (r: RequestRow) => r.requestCode)
  }

  /** Why a booking is refused: the source throws for each of these. */
  datatype BookingError = ClientNotFound | NoFreeSeats | StorageFailure

  /** The checks `CreateRequest` makes before writing: the client id and the price to charge. */
  function BookingCheck(users: seq<UserRow>, tours: seq<TourRow>, request: Request): (r: Result<(int, real), BookingError>)
    ensures r == Err(ClientNotFound) <==> ClientIdByName(users, request.clientName).None?
    ensures r == Err(NoFreeSeats) <==>
      ClientIdByName(users, request.clientName).Some? && SeatOfferOf(tours, request.tourId).freeSeats <= 0
    ensures r != Err(StorageFailure)
    ensures r.Ok? ==>
      SeatOfferOf(tours, request.tourId).freeSeats > 0
      && r.value.0 == ClientIdByName(users, request.clientName).value
      && r.value.1 == DiscountedPrice(SeatOfferOf(tours, request.tourId).price, SeatOfferOf(tours, request.tourId).discount)
  {
    match ClientIdByName(users, request.clientName)
    case None => Err(ClientNotFound)
    case Some(clientId) =>
      var offer := SeatOfferOf(tours, request.tourId);
      if offer.freeSeats <= 0 then Err(NoFreeSeats)
      else Ok((clientId, DiscountedPrice(offer.price, offer.discount)))
  }

  /** A missing tour reads as no free seats, so booking it is refused. */
  lemma MissingTourRefused(users: seq<UserRow>, tours: seq<TourRow>, request: Request)
    requires ClientIdByName(users, request.clientName).Some?
    requires forall i :: 0 <= i < |tours| ==> tours[i].tourId != request.tourId
    ensures BookingCheck(users, tours, request) == Err(NoFreeSeats)
  {
  }

  /** The row `CreateRequest` inserts. */
  function NewRequestRow(requestId: int, code: int, request: Request, clientId: int, totalPrice: real): RequestRow {
    RequestRow(requestId, code, request.tourId, clientId, request.requestDate,
      Some(if request.status.Some? then request.status.value else StatusNew), 1, totalPrice, "")
  }

  // ---------------------------------------------------------------------
  // Tour list

  /** `LEFT JOIN Countries`: the name of the country with that id, if any. */
  function CountryNameOf(countries: seq<CountryRow>, countryId: int): (r: Option<string>)
    ensures r.Some? ==> exists i :: 0 <= i < |countries| && countries[i].countryId == countryId && countries[i].countryName == r.value
    ensures r.None? <==> forall i :: 0 <= i < |countries| ==> countries[i].countryId != countryId
  {
    match FirstIndex(countries, (c: CountryRow) => c.countryId == countryId)
    case None => None
    case Some(i) => Some(countries[i].countryName)
  }

  /** `LEFT JOIN BusTypes`: the name of the bus type with that id, if any. */
  function BusTypeNameOf(busTypes: seq<BusType>, busTypeId: int): (r: Option<string>)
    ensures r.Some? ==> exists i :: 0 <= i < |busTypes| && busTypes[i].busTypeId == busTypeId && busTypes[i].typeName == r.value
    ensures r.None? <==> forall i :: 0 <= i < |busTypes| ==> busTypes[i].busTypeId != busTypeId
  {
    match FirstIndex(busTypes, (b: BusType) => b.busTypeId == busTypeId)
    case None => None
    case Some(i) => Some(busTypes[i].typeName)
  }

  function OrElse(o: Option<string>, default: string): string {
    if o.Some? then o.value else default
  }

  /** The `Tour` object built from a joined row; a missing country or bus type shows a placeholder. */
  function TourView(row: TourRow, countries: seq<CountryRow>, busTypes: seq<BusType>): (t: Tour)
    ensures t.id == row.tourId && t.freeSeats == row.freeSeats && t.capacity == row.capacity
    ensures t.name == row.tourName && t.startDate == row.startDate && t.price == row.price
  {
    Tour(row.tourId, row.tourCode, row.tourName,
      OrElse(CountryNameOf(countries, row.countryId), "Не указана"),
      row.durationDays, row.startDate, row.price,
      OrElse(BusTypeNameOf(busTypes, row.busTypeId), "Не указан"),
      row.capacity, row.freeSeats, Some(row.photoFileName), row.discount)
  }

  /** The orders the tour list offers. */
  datatype SortOrder =
    | StartDateAscending | StartDateDescending | PriceAscending | PriceDescending
    | DurationDescending | NameAscending | FreeSeatsDescending

  /** The caption of each order in the sort selector. */
  function Caption(o: SortOrder): string {
    match o
    case StartDateAscending => "По дате (возрастание)"
    case StartDateDescending => "По дате (убывание)"
    case PriceAscending => "По цене (возрастание)"
    case PriceDescending => "По цене (убывание)"
    case DurationDescending => "По длительности"
    case NameAscending => "По названию"
    case FreeSeatsDescending => "По количеству мест"
  }

  /** The `sortBy` switch; an unknown caption sorts by start date, ascending. */
  function SortOrderOf(sortBy: string): (o: SortOrder)
    ensures o == StartDateAscending || Caption(o) == sortBy
    ensures (forall p :: Caption(p) != sortBy) ==> o == StartDateAscending
  {
    if sortBy == Caption(StartDateDescending) then StartDateDescending
    else if sortBy == Caption(PriceAscending) then PriceAscending
    else if sortBy == Caption(PriceDescending) then PriceDescending
    else if sortBy == Caption(DurationDescending) then DurationDescending
    else if sortBy == Caption(NameAscending) then NameAscending
    else if sortBy == Caption(FreeSeatsDescending) then FreeSeatsDescending
    else StartDateAscending
  }

  /** Every caption selects its own order. */
  lemma SortOrderOfCaption(o: SortOrder)
    ensures SortOrderOf(Caption(o)) == o
  {
    var c := Caption(o);
    match o
    case StartDateAscending =>
      assert c != Caption(StartDateDescending) by { assert c[9] != Caption(StartDateDescending)[9]; }
      assert c != Caption(PriceAscending) by { assert c[3] != Caption(PriceAscending)[3]; }
      assert c != Caption(PriceDescending) by { assert c[3] != Caption(PriceDescending)[3]; }
      assert c != Caption(DurationDescending) by { assert c[4] != Caption(DurationDescending)[4]; }
      assert c != Caption(NameAscending) by { assert c[3] != Caption(NameAscending)[3]; }
      assert c != Caption(FreeSeatsDescending) by { assert c[3] != Caption(FreeSeatsDescending)[3]; }
    case PriceAscending =>
      assert c != Caption(StartDateDescending) by { assert c[3] != Caption(StartDateDescending)[3]; }
    case PriceDescending =>
      assert c != Caption(StartDateDescending) by { assert c[3] != Caption(StartDateDescending)[3]; }
      assert c != Caption(PriceAscending) by { assert c[9] != Caption(PriceAscending)[9]; }
    case DurationDescending =>
      assert c != Caption(StartDateDescending) by { assert c[4] != Caption(StartDateDescending)[4]; }
      assert c != Caption(PriceAscending) by { assert c[3] != Caption(PriceAscending)[3]; }
      assert c != Caption(PriceDescending) by { assert c[3] != Caption(PriceDescending)[3]; }
    case NameAscending =>
      assert c != Caption(StartDateDescending) by { assert c[3] != Caption(StartDateDescending)[3]; }
      assert c != Caption(PriceAscending) by { assert c[3] != Caption(PriceAscending)[3]; }
      assert c != Caption(PriceDescending) by { assert c[3] != Caption(PriceDescending)[3]; }
      assert c != Caption(DurationDescending) by { assert c[3] != Caption(DurationDescending)[3]; }
    case FreeSeatsDescending =>
      assert c != Caption(StartDateDescending) by { assert c[3] != Caption(StartDateDescending)[3]; }
      assert c != Caption(PriceAscending) by { assert c[3] != Caption(PriceAscending)[3]; }
      assert c != Caption(PriceDescending) by { assert c[3] != Caption(PriceDescending)[3]; }
      assert c != Caption(DurationDescending) by { assert c[3] != Caption(DurationDescending)[3]; }
      assert c != Caption(NameAscending) by { assert c[3] != Caption(NameAscending)[3]; }
    case StartDateDescending =>
  }

  /** The sort `GetAllTours` uses when the caller names none. */
  const DefaultSort: string := "По дате (возрастание)"

  /** The default sort is by start date, ascending. */
  lemma DefaultSortIsStartDate()
    ensures SortOrderOf(DefaultSort) == StartDateAscending
  {
    SortOrderOfCaption(StartDateAscending);
  }

  /** "May come before" for each order; a descending order compares the other way round. */
  function TourLe(o: SortOrder): (Tour, Tour) -> bool {
    match o
    case StartDateAscending => (a: Tour, b: Tour) => a.startDate <= b.startDate
    case StartDateDescending => (a: Tour, b: Tour) => a.startDate >= b.startDate
    case PriceAscending => (a: Tour, b: Tour) => a.price <= b.price
    case PriceDescending => (a: Tour, b: Tour) => a.price >= b.price
    case DurationDescending => (a: Tour, b: Tour) => a.durationDays >= b.durationDays
    case NameAscending => (a: Tour, b: Tour) => LexLe(a.name, b.name)
    case FreeSeatsDescending => (a: Tour, b: Tour) => a.freeSeats >= b.freeSeats
  }

  /** Each order is a total preorder, so sorting by it yields a sorted list. */
  lemma TourLeIsPreorder(o: SortOrder)
    ensures Total(TourLe(o)) && Transitive(TourLe(o))
  {
    if o == NameAscending {
      forall a: Tour, b: Tour ensures TourLe(o)(a, b) || TourLe(o)(b, a) {
        LexLeTotal(a.name, b.name);
      }
      forall a: Tour, b: Tour, c: Tour | TourLe(o)(a, b) && TourLe(o)(b, c) ensures TourLe(o)(a, c) {
        LexLeTransitive(a.name, b.name, c.name);
      }
    }
  }

  /** `SortTours`: LINQ's stable `OrderBy`/`OrderByDescending` by the selected key. */
  function SortTours(tours: seq<Tour>, sortBy: string): seq<Tour> {
    SortBy(tours, TourLe(SortOrderOf(sortBy)))
  }

  /** The country filter is off for a blank value and for "Все". */
  predicate CountryFilterOff(countryFilter: string) {
    IsBlank(countryFilter) || countryFilter == FilterAll
  }

  /** The `WHERE` clause of the tour query for one row. */
  predicate StoredTourPasses(row: TourRow, countries: seq<CountryRow>, guestOrClient: bool, search: string, countryFilter: string) {
    var country := CountryNameOf(countries, row.countryId);
    (IsBlank(search) || LikeContains(row.tourName, search) || (country.Some? && LikeContains(country.value, search)))
    && (CountryFilterOff(countryFilter) || country == Some(countryFilter))
    && (!guestOrClient || row.freeSeats > 0)
  }

  function QueryFilter(countries: seq<CountryRow>, guestOrClient: bool, search: string, countryFilter: string): TourRow -> bool {
    (row: TourRow) => StoredTourPasses(row, countries, guestOrClient, search, countryFilter)
  }

  function ViewOf(countries: seq<CountryRow>, busTypes: seq<BusType>): TourRow -> Tour {
    (row: TourRow) => TourView(row, countries, busTypes)
  }

  /** The tours the query returns, in the chosen order. */
  function StoredTours(tours: seq<TourRow>, countries: seq<CountryRow>, busTypes: seq<BusType>,
                       guestOrClient: bool, search: string, countryFilter: string, sortBy: string): seq<Tour>
  {
    SortTours(Map(Filter(tours, QueryFilter(countries, guestOrClient, search, countryFilter)), ViewOf(countries, busTypes)), sortBy)
  }

  /** `CreateTestTours`: five sample tours starting a given number of days after `now`. */
  function TestTours(now: int): (r: seq<Tour>)
    ensures forall i :: 0 <= i < |r| ==> r[i].freeSeats > 0 && r[i].capacity >= r[i].freeSeats
  {
    [ Tour(1, 101, "Романтическая Италия: Рим, Флоренция, Венеция", "Италия", 10, now + 14 * TicksPerDay,
           85000.0, "Стандарт", 35, 12, None, 0.0),
      Tour(2, 102, "Париж и Замки Луары", "Франция", 7, now + 21 * TicksPerDay,
           92500.0, "Комфорт", 45, 5, None, 10.0),
      Tour(3, 103, "Австрийские Альпы: Зальцбург и Инсбрук", "Австрия", 8, now + 30 * TicksPerDay,
           78300.0, "Стандарт", 35, 20, None, 20.0),
      Tour(4, 104, "Берлин, Дрезден, Мюнхен", "Германия", 9, now + 45 * TicksPerDay,
           92000.0, "Комфорт", 45, 2, None, 5.0),
      Tour(5, 105, "Прага и Карловы Вары", "Чехия", 6, now + 3 * TicksPerDay,
           58000.0, "Минивэн", 16, 10, None, 0.0) ]
  }

  /** The fallback's search: in the name or the country, ignoring case. */
  function SearchFilter(search: string): Tour -> bool {
    (t: Tour) => IsBlank(search) || ContainsIgnoreCase(t.name, search) || ContainsIgnoreCase(t.country, search)
  }

  /** The fallback's country filter, ignoring case. */
  function CountryFilter(countryFilter: string): Tour -> bool {
    (t: Tour) => CountryFilterOff(countryFilter) || EqualsIgnoreCase(t.country, countryFilter)
  }

  /** The sample tours that pass the search and country filters; the fallback has no free-seat filter. */
  function FallbackTours(now: int, search: string, countryFilter: string, sortBy: string): seq<Tour> {
    SortTours(Filter(Filter(TestTours(now), SearchFilter(search)), CountryFilter(countryFilter)), sortBy)
  }

  /** `GetAllTours`: the stored tours, or the filtered sample tours when the query finds none. */
  function AllTours(tours: seq<TourRow>, countries: seq<CountryRow>, busTypes: seq<BusType>, now: int,
                    guestOrClient: bool, search: string, countryFilter: string, sortBy: string): seq<Tour>
  {
    var stored := StoredTours(tours, countries, busTypes, guestOrClient, search, countryFilter, sortBy);
    if stored == [] then FallbackTours(now, search, countryFilter, sortBy) else stored
  }

  lemma InSortBy<T>(s: seq<T>, le: (T, T) -> bool, x: T)
    requires x in SortBy(s, le)
    ensures x in s
  {
    assert x in multiset(SortBy(s, le));
  }

  /** Stored tours that a guest or a client sees have a free seat. */
  lemma StoredToursForGuestFree(tours: seq<TourRow>, countries: seq<CountryRow>, busTypes: seq<BusType>,
                                search: string, countryFilter: string, sortBy: string, t: Tour)
    requires t in StoredTours(tours, countries, busTypes, true, search, countryFilter, sortBy)
    ensures t.freeSeats > 0
  {
    var rows := Filter(tours, QueryFilter(countries, true, search, countryFilter));
    var views := Map(rows, ViewOf(countries, busTypes));
    InSortBy(views, TourLe(SortOrderOf(sortBy)), t);
    var i :| 0 <= i < |views| && views[i] == t;
    assert QueryFilter(countries, true, search, countryFilter)(rows[i]);
  }

  /** Every fallback tour is one of the sample tours. */
  lemma FallbackFromTestTours(now: int, search: string, countryFilter: string, sortBy: string, t: Tour)
    requires t in FallbackTours(now, search, countryFilter, sortBy)
    ensures t in TestTours(now)
  {
    var found := Filter(TestTours(now), SearchFilter(search));
    var inCountry := Filter(found, CountryFilter(countryFilter));
    InSortBy(inCountry, TourLe(SortOrderOf(sortBy)), t);
  }

  /** A guest or a client is shown only tours with a free seat. */
  lemma GuestSeesOnlyFreeTours(tours: seq<TourRow>, countries: seq<CountryRow>, busTypes: seq<BusType>, now: int,
                               search: string, countryFilter: string, sortBy: string, t: Tour)
    requires t in AllTours(tours, countries, busTypes, now, true, search, countryFilter, sortBy)
    ensures t.freeSeats > 0
  {
    if StoredTours(tours, countries, busTypes, true, search, countryFilter, sortBy) == [] {
      FallbackFromTestTours(now, search, countryFilter, sortBy, t);
    } else {
      StoredToursForGuestFree(tours, countries, busTypes, search, countryFilter, sortBy, t);
    }
  }

  /** A blank country filter and "Все" give the same list as no filter. */
  lemma CountryFilterOffIsNoFilter(tours: seq<TourRow>, countries: seq<CountryRow>, busTypes: seq<BusType>, now: int,
                                   guestOrClient: bool, search: string, countryFilter: string, sortBy: string)
    requires CountryFilterOff(countryFilter)
    ensures AllTours(tours, countries, busTypes, now, guestOrClient, search, countryFilter, sortBy)
         == AllTours(tours, countries, busTypes, now, guestOrClient, search, "", sortBy)
  {
    FilterCongruent(tours, QueryFilter(countries, guestOrClient, search, countryFilter), QueryFilter(countries, guestOrClient, search, ""));
    var found := Filter(TestTours(now), SearchFilter(search));
    FilterCongruent(found, CountryFilter(countryFilter), CountryFilter(""));
  }

  /** The tour list is sorted by the selected order, and by start date for an unknown caption. */
  lemma AllToursSorted(tours: seq<TourRow>, countries: seq<CountryRow>, busTypes: seq<BusType>, now: int,
                       guestOrClient: bool, search: string, countryFilter: string, sortBy: string)
    ensures Sorted(AllTours(tours, countries, busTypes, now, guestOrClient, search, countryFilter, sortBy),
                   TourLe(SortOrderOf(sortBy)))
  {
    var o := SortOrderOf(sortBy);
    TourLeIsPreorder(o);
    SortBySorted(Map(Filter(tours, QueryFilter(countries, guestOrClient, search, countryFilter)), ViewOf(countries, busTypes)), TourLe(o));
    SortBySorted(Filter(Filter(TestTours(now), SearchFilter(search)), CountryFilter(countryFilter)), TourLe(o));
  }

  /** A stored tour is listed exactly when some row passes the query and shows as that tour. */
  lemma StoredToursExactly(tours: seq<TourRow>, countries: seq<CountryRow>, busTypes: seq<BusType>,
                           guestOrClient: bool, search: string, countryFilter: string, sortBy: string, t: Tour)
    ensures t in StoredTours(tours, countries, busTypes, guestOrClient, search, countryFilter, sortBy)
        <==> exists i :: 0 <= i < |tours| && StoredTourPasses(tours[i], countries, guestOrClient, search, countryFilter)
                          && TourView(tours[i], countries, busTypes) == t
  {
    var p := QueryFilter(countries, guestOrClient, search, countryFilter);
    var f := ViewOf(countries, busTypes);
    var views := Map(Filter(tours, p), f);
    var sorted := SortBy(views, TourLe(SortOrderOf(sortBy)));
    assert t in sorted <==> t in multiset(views);
    InMapFilter(tours, p, f, t);
  }

  // ---------------------------------------------------------------------
  // Country list

  /** Increasing in ordinal order with no repeats (`SELECT DISTINCT … ORDER BY`). */
  predicate StrictlySorted(s: seq<string>) {
    forall i, j :: 0 <= i < j < |s| ==> LexLe(s[i], s[j]) && s[i] != s[j]
  }

  /** Puts `x` in its place in an increasing list, unless it is there already. */
  function InsertDistinct(x: string, s: seq<string>): (r: seq<string>)
    ensures forall y :: y in r <==> y == x || y in s
    decreases |s|
  {
    if s == [] then [x]
    else if x == s[0] then s
    else if LexLe(x, s[0]) then [x] + s
    else
      assert s == [s[0]] + s[1..];
      [s[0]] + InsertDistinct(x, s[1..])
  }

  lemma {:induction false} InsertDistinctSorted(x: string, s: seq<string>)
    requires StrictlySorted(s)
    ensures StrictlySorted(InsertDistinct(x, s))
    decreases |s|
  {
    if s == [] || x == s[0] {
    } else if LexLe(x, s[0]) {
      forall j | 0 < j < |s| ensures LexLe(x, s[j]) && x != s[j] {
        LexLeTransitive(x, s[0], s[j]);
        LexLeAntisymmetric(x, s[0]);
      }
    } else {
      LexLeTotal(x, s[0]);
      InsertDistinctSorted(x, s[1..]);
      var rest := InsertDistinct(x, s[1..]);
      forall j | 0 <= j < |rest| ensures LexLe(s[0], rest[j]) && s[0] != rest[j] {
        assert rest[j] in rest;
        if rest[j] != x {
          var k :| 0 <= k < |s[1..]| && s[1..][k] == rest[j];
          assert s[k + 1] == rest[j];
        }
      }
    }
  }

  /** The distinct values of `s` in increasing order. */
  function SortedDistinct(s: seq<string>): (r: seq<string>)
    ensures forall y :: y in r <==> y in s
    decreases |s|
  {
    if s == [] then []
    else
      assert s == [s[0]] + s[1..];
      InsertDistinct(s[0], SortedDistinct(s[1..]))
  }

  lemma {:induction false} SortedDistinctSorted(s: seq<string>)
    ensures StrictlySorted(SortedDistinct(s))
    decreases |s|
  {
    if s != [] {
      SortedDistinctSorted(s[1..]);
      InsertDistinctSorted(s[0], SortedDistinct(s[1..]));
    }
  }

  /** `GetCountries`: "Все", then each country name once, in increasing order. */
  function CountryList(countries: seq<CountryRow>): (r: seq<string>)
    ensures r != [] && r[0] == FilterAll
    ensures forall name :: name in r[1..] <==> exists i :: 0 <= i < |countries| && countries[i].countryName == name
  {
    var names := Map(countries, (c: CountryRow) => c.countryName);
    assert forall i :: 0 <= i < |countries| ==> countries[i].countryName == names[i];
    [FilterAll] + SortedDistinct(names)
  }

  lemma CountryListSorted(countries: seq<CountryRow>)
    ensures StrictlySorted(CountryList(countries)[1..])
  {
    SortedDistinctSorted(Map(countries, (c: CountryRow) => c.countryName));
    assert CountryList(countries)[1..] == SortedDistinct(Map(countries, (c: CountryRow) => c.countryName));
  }

  // ---------------------------------------------------------------------
  // Client list

  predicate IsClientRow(row: UserRow) {
    row.role == Some(ClientRole)
  }

  function ClientUser(row: UserRow): User {
    User(row.userId, OrElse(row.role, ""), row.fullName, row.login, row.password)
  }

  function ByFullName(): (User, User) -> bool {
    (a: User, b: User) => LexLe(a.fullName, b.fullName)
  }

  /** `GetClients`: the users whose role is the client role, ordered by full name. */
  function ClientList(users: seq<UserRow>): seq<User> {
    SortBy(Map(Filter(users, IsClientRow), ClientUser), ByFullName())
  }

  /** The client list holds exactly the users stored with the client role. */
  lemma ClientListExactly(users: seq<UserRow>, u: User)
    ensures u in ClientList(users) <==> exists i :: 0 <= i < |users| && IsClientRow(users[i]) && ClientUser(users[i]) == u
  {
    var m := Map(Filter(users, IsClientRow), ClientUser);
    assert u in SortBy(m, ByFullName()) <==> u in multiset(m);
    InMapFilter(users, IsClientRow, ClientUser, u);
  }

  /** Everyone in the client list is an authorised client, and the list is ordered by name. */
  lemma ClientListProperties(users: seq<UserRow>)
    ensures forall u :: u in ClientList(users) ==> u.IsAuthorizedClient()
    ensures Sorted(ClientList(users), ByFullName())
  {
    forall u | u in ClientList(users) ensures u.IsAuthorizedClient() {
      ClientListExactly(users, u);
    }
    forall a: User, b: User ensures ByFullName()(a, b) || ByFullName()(b, a) {
      LexLeTotal(a.fullName, b.fullName);
    }
    forall a: User, b: User, c: User | ByFullName()(a, b) && ByFullName()(b, c) ensures ByFullName()(a, c) {
      LexLeTransitive(a.fullName, b.fullName, c.fullName);
    }
    SortBySorted(Map(Filter(users, IsClientRow), ClientUser), ByFullName());
  }

  // ---------------------------------------------------------------------
  // Request list

  /** The `INNER JOIN Tours`: the name of the request's tour, if the tour exists. */
  function TourNameOf(tours: seq<TourRow>, tourId: int): (r: Option<string>)
    ensures r.None? <==> forall i :: 0 <= i < |tours| ==> tours[i].tourId != tourId
  {
    match FirstIndex(tours, (t: TourRow) => t.tourId == tourId)
    case None => None
    case Some(k) => Some(tours[k].tourName)
  }

  /** The `LEFT JOIN Users`: the full name of the request's client, if the user exists. */
  function ClientNameOf(users: seq<UserRow>, userId: int): (r: Option<string>)
    ensures r.None? <==> forall i :: 0 <= i < |users| ==> users[i].userId != userId
  {
    match FirstIndex(users, (u: UserRow) => u.userId == userId)
    case None => None
    case Some(k) => Some(users[k].fullName)
  }

  /** The `WHERE` clause of the request query; the search is off only for an empty string. */
  predicate RequestPasses(row: RequestRow, tours: seq<TourRow>, users: seq<UserRow>, search: string, statusFilter: string) {
    var client := ClientNameOf(users, row.clientId);
    TourNameOf(tours, row.tourId).Some?
    && (search == ""
        || (client.Some? && LikeContains(client.value, search))
        || LikeContains(TourNameOf(tours, row.tourId).value, search)
        || LikeContains(IntToString(row.requestId), search))
    && (statusFilter == "" || statusFilter == FilterAll || row.status == Some(statusFilter))
  }

  function RequestFilter(tours: seq<TourRow>, users: seq<UserRow>, search: string, statusFilter: string): RequestRow -> bool {
    (row: RequestRow) => RequestPasses(row, tours, users, search, statusFilter)
  }

  /** The `Request` object built from a joined row; a missing client or status shows a default. */
  function RequestView(row: RequestRow, tours: seq<TourRow>, users: seq<UserRow>): (r: Request)
    ensures r.id == row.requestId && r.tourId == row.tourId && r.requestDate == row.requestDate
    ensures r.status.Some? && (row.status.Some? ==> r.status == row.status)
  {
    Request(row.requestId, OrElse(ClientNameOf(users, row.clientId), "Не указано"), "", "",
      row.tourId, OrElse(TourNameOf(tours, row.tourId), "Не указан"), row.requestDate,
      Some(OrElse(row.status, StatusNew)))
  }

  function RequestViewOf(tours: seq<TourRow>, users: seq<UserRow>): RequestRow -> Request {
    (row: RequestRow) => RequestView(row, tours, users)
  }

  /** `ORDER BY RequestDate DESC`. */
  function NewestFirst(): (Request, Request) -> bool {
    (a: Request, b: Request) => a.requestDate >= b.requestDate
  }

  /** `GetAllRequests`: the requests on existing tours that pass the filters, newest first. */
  function AllRequests(requests: seq<RequestRow>, tours: seq<TourRow>, users: seq<UserRow>, search: string, statusFilter: string): seq<Request> {
    SortBy(Map(Filter(requests, RequestFilter(tours, users, search, statusFilter)), RequestViewOf(tours, users)), NewestFirst())
  }

  /** A request is listed exactly when some stored row on an existing tour passes the filters and shows as it. */
  lemma AllRequestsExactly(requests: seq<RequestRow>, tours: seq<TourRow>, users: seq<UserRow>, search: string, statusFilter: string, r: Request)
    ensures r in AllRequests(requests, tours, users, search, statusFilter)
        <==> exists i :: 0 <= i < |requests| && RequestPasses(requests[i], tours, users, search, statusFilter)
                          && RequestView(requests[i], tours, users) == r
  {
    var p := RequestFilter(tours, users, search, statusFilter);
    var m := Map(Filter(requests, p), RequestViewOf(tours, users));
    assert r in SortBy(m, NewestFirst()) <==> r in multiset(m);
    InMapFilter(requests, p, RequestViewOf(tours, users), r);
  }

  /** The list is newest first; with a status filter on, every request listed has that status. */
  lemma AllRequestsProperties(requests: seq<RequestRow>, tours: seq<TourRow>, users: seq<UserRow>, search: string, statusFilter: string)
    ensures Sorted(AllRequests(requests, tours, users, search, statusFilter), NewestFirst())
    ensures statusFilter != "" && statusFilter != FilterAll ==>
      forall r :: r in AllRequests(requests, tours, users, search, statusFilter) ==> r.status == Some(statusFilter)
  {
    SortBySorted(Map(Filter(requests, RequestFilter(tours, users, search, statusFilter)), RequestViewOf(tours, users)), NewestFirst());
    forall r | r in AllRequests(requests, tours, users, search, statusFilter)
      ensures statusFilter != "" && statusFilter != FilterAll ==> r.status == Some(statusFilter)
    {
      AllRequestsExactly(requests, tours, users, search, statusFilter, r);
    }
  }

  /** A request whose tour was removed from the table is not listed. */
  lemma RequestWithoutTourHidden(requests: seq<RequestRow>, tours: seq<TourRow>, users: seq<UserRow>, search: string, statusFilter: string, r: Request)
    requires forall i :: 0 <= i < |tours| ==> tours[i].tourId != r.tourId
    ensures r !in AllRequests(requests, tours, users, search, statusFilter)
  {
    AllRequestsExactly(requests, tours, users, search, statusFilter, r);
  }

  // ---------------------------------------------------------------------
  // Single tour, status update and removal

  /** Both joins of `GetTourById` find a row. */
  predicate Joinable(row: TourRow, countries: seq<CountryRow>, busTypes: seq<BusType>) {
    CountryNameOf(countries, row.countryId).Some? && BusTypeNameOf(busTypes, row.busTypeId).Some?
  }

  /** `GetTourById`: the first tour with that id whose country and bus type exist, else null. */
  function TourById(tours: seq<TourRow>, countries: seq<CountryRow>, busTypes: seq<BusType>, tourId: int): (r: Option<Tour>)
    ensures r.None? <==> forall i :: 0 <= i < |tours| ==> !(tours[i].tourId == tourId && Joinable(tours[i], countries, busTypes))
    ensures r.Some? ==> exists i :: 0 <= i < |tours| && tours[i].tourId == tourId && Joinable(tours[i], countries, busTypes)
                                   && r.value == TourView(tours[i], countries, busTypes)
  {
    match FirstIndex(tours, (row: TourRow) => row.tourId == tourId && Joinable(row, countries, busTypes))
    case None => None
    case Some(k) => Some(TourView(tours[k], countries, busTypes))
  }

  predicate HasRequest(requests: seq<RequestRow>, requestId: int) {
    exists i :: 0 <= i < |requests| && requests[i].requestId == requestId
  }

  /** `UPDATE Requests SET Status = … WHERE RequestID = …`. */
  function SetRequestStatus(requests: seq<RequestRow>, requestId: int, status: string): (r: seq<RequestRow>)
    ensures |r| == |requests|
    ensures forall i :: 0 <= i < |requests| ==>
      if requests[i].requestId == requestId then r[i] == requests[i].(status := Some(status)) else r[i] == requests[i]
  {
    Map(requests, (row: RequestRow) => if row.requestId == requestId then row.(status := Some(status)) else row)
  }

  /** Setting a status twice is setting it once, and the codes of the requests never change. */
  lemma SetRequestStatusProperties(requests: seq<RequestRow>, requestId: int, status: string)
    ensures SetRequestStatus(SetRequestStatus(requests, requestId, status), requestId, status) == SetRequestStatus(requests, requestId, status)
    ensures CodesOf(SetRequestStatus(requests, requestId, status)) == CodesOf(requests)
    ensures !HasRequest(requests, requestId) ==> SetRequestStatus(requests, requestId, status) == requests
  {
  }

  /** The `COUNT(*)` guard of `DeleteTour`. */
  predicate HasRequestFor(requests: seq<RequestRow>, tourId: int) {
    exists i :: 0 <= i < |requests| && requests[i].tourId == tourId
  }

  predicate HasTour(tours: seq<TourRow>, tourId: int) {
    exists i :: 0 <= i < |tours| && tours[i].tourId == tourId
  }

  /** `DELETE FROM Tours WHERE TourID = …`. */
  function RemoveTour(tours: seq<TourRow>, tourId: int): seq<TourRow> {
    Filter(tours, (row: TourRow) => row.tourId != tourId)
  }

  /** Removal keeps exactly the other tours, in order, and leaves no tour with that id. */
  lemma RemoveTourExactly(tours: seq<TourRow>, tourId: int)
    ensures forall row :: row in RemoveTour(tours, tourId) <==> row in tours && row.tourId != tourId
    ensures !HasTour(RemoveTour(tours, tourId), tourId)
    ensures !HasTour(tours, tourId) ==> RemoveTour(tours, tourId) == tours
  {
    var r := RemoveTour(tours, tourId);
    forall row | row in r ensures row in tours && row.tourId != tourId {
      var i :| 0 <= i < |r| && r[i] == row;
    }
    if !HasTour(tours, tourId) {
      FilterKeepsAll(tours, (row: TourRow) => row.tourId != tourId);
    }
  }

  // ---------------------------------------------------------------------
  // Tour and bus-type writes of the edit screens

  /** `SELECT CountryID FROM Countries WHERE CountryName = …`; 1 when there is no such row. */
  function CountryIdOf(countries: seq<CountryRow>, name: string): (id: int)
    ensures (forall i :: 0 <= i < |countries| ==> countries[i].countryName != name) ==> id == 1
    ensures (exists i :: 0 <= i < |countries| && countries[i].countryName == name) ==>
      exists i :: 0 <= i < |countries| && countries[i].countryName == name && countries[i].countryId == id
  {
    match FirstIndex(countries, (c: CountryRow) => c.countryName == name)
    case None => 1
    case Some(k) => countries[k].countryId
  }

  /** `SELECT BusTypeID FROM BusTypes WHERE TypeName = …`; 1 when there is no such row. */
  function BusTypeIdOf(busTypes: seq<BusType>, name: string): (id: int)
    ensures (forall i :: 0 <= i < |busTypes| ==> busTypes[i].typeName != name) ==> id == 1
    ensures (exists i :: 0 <= i < |busTypes| && busTypes[i].typeName == name) ==>
      exists i :: 0 <= i < |busTypes| && busTypes[i].typeName == name && busTypes[i].busTypeId == id
  {
    match FirstIndex(busTypes, (b: BusType) => b.typeName == name)
    case None => 1
    case Some(k) => busTypes[k].busTypeId
  }

  /** The columns the tour editor's `UPDATE … SET` assigns; `TourCode` is not among them. */
  datatype TourEdit = TourEdit(
    tourName: string, countryId: int, durationDays: int, startDate: int, price: real,
    busTypeId: int, capacity: int, freeSeats: int, photoFileName: string, discount: real)

  function ApplyEdit(row: TourRow, e: TourEdit): TourRow {
    row.(tourName := e.tourName, countryId := e.countryId, durationDays := e.durationDays,
         startDate := e.startDate, price := e.price, busTypeId := e.busTypeId, capacity := e.capacity,
         freeSeats := e.freeSeats, photoFileName := e.photoFileName, discount := e.discount)
  }

  /** `UPDATE Tours SET … WHERE TourID = …`. */
  function UpdateTourRows(tours: seq<TourRow>, tourId: int, e: TourEdit): (r: seq<TourRow>)
    ensures |r| == |tours|
    ensures forall i :: 0 <= i < |tours| ==> r[i] == if tours[i].tourId == tourId then ApplyEdit(tours[i], e) else tours[i]
  {
    Map(tours, (row: TourRow) => if row.tourId == tourId then ApplyEdit(row, e) else row)
  }

  /** The update rewrites only the rows with that id, and never their id or tour code. */
  lemma UpdateTourRowsEffect(tours: seq<TourRow>, tourId: int, e: TourEdit)
    ensures forall i :: 0 <= i < |tours| ==>
      UpdateTourRows(tours, tourId, e)[i].tourId == tours[i].tourId
      && UpdateTourRows(tours, tourId, e)[i].tourCode == tours[i].tourCode
    ensures forall i :: 0 <= i < |tours| && tours[i].tourId == tourId ==>
      UpdateTourRows(tours, tourId, e)[i].tourName == e.tourName
      && UpdateTourRows(tours, tourId, e)[i].freeSeats == e.freeSeats
      && UpdateTourRows(tours, tourId, e)[i].capacity == e.capacity
      && UpdateTourRows(tours, tourId, e)[i].price == e.price
      && UpdateTourRows(tours, tourId, e)[i].discount == e.discount
    ensures !HasTour(tours, tourId) ==> UpdateTourRows(tours, tourId, e) == tours
  {
  }

  /** `ORDER BY TypeName`. */
  function ByTypeName(): (BusType, BusType) -> bool {
    (a: BusType, b: BusType) => LexLe(a.typeName, b.typeName)
  }

  lemma ByTypeNameIsPreorder()
    ensures Total(ByTypeName()) && Transitive(ByTypeName())
  {
    forall a: BusType, b: BusType ensures ByTypeName()(a, b) || ByTypeName()(b, a) {
      LexLeTotal(a.typeName, b.typeName);
    }
    forall a: BusType, b: BusType, c: BusType | ByTypeName()(a, b) && ByTypeName()(b, c) ensures ByTypeName()(a, c) {
      LexLeTransitive(a.typeName, b.typeName, c.typeName);
    }
  }

  /** The `COUNT(*)` guard of the bus-type delete. */
  predicate TourUsesBus(tours: seq<TourRow>, busTypeId: int) {
    exists i :: 0 <= i < |tours| && tours[i].busTypeId == busTypeId
  }

  predicate HasBusType(busTypes: seq<BusType>, busTypeId: int) {
    exists i :: 0 <= i < |busTypes| && busTypes[i].busTypeId == busTypeId
  }

  /** `DELETE FROM BusTypes WHERE BusTypeID = …`. */
  function RemoveBusType(busTypes: seq<BusType>, busTypeId: int): seq<BusType> {
    Filter(busTypes, (b: BusType) => b.busTypeId != busTypeId)
  }

  /** Removal keeps exactly the other bus types and leaves none with that id. */
  lemma RemoveBusTypeExactly(busTypes: seq<BusType>, busTypeId: int)
    ensures forall b :: b in RemoveBusType(busTypes, busTypeId) <==> b in busTypes && b.busTypeId != busTypeId
    ensures !HasBusType(RemoveBusType(busTypes, busTypeId), busTypeId)
    ensures !HasBusType(busTypes, busTypeId) ==> RemoveBusType(busTypes, busTypeId) == busTypes
  {
    var r := RemoveBusType(busTypes, busTypeId);
    forall b | b in r ensures b in busTypes && b.busTypeId != busTypeId {
      var i :| 0 <= i < |r| && r[i] == b;
    }
    if !HasBusType(busTypes, busTypeId) {
      FilterKeepsAll(busTypes, (b: BusType) => b.busTypeId != busTypeId);
    }
  }

  /** `UPDATE BusTypes SET TypeName = …, Capacity = …, Description = … WHERE BusTypeID = …`. */
  function UpdateBusRows(busTypes: seq<BusType>, busTypeId: int, typeName: string, capacity: int, description: string): (r: seq<BusType>)
    ensures |r| == |busTypes|
    ensures forall i :: 0 <= i < |busTypes| ==>
      r[i] == if busTypes[i].busTypeId == busTypeId then BusType(busTypeId, typeName, capacity, description) else busTypes[i]
  {
    Map(busTypes, (b: BusType) => if b.busTypeId == busTypeId then BusType(busTypeId, typeName, capacity, description) else b)
  }
}
