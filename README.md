# GlobusTourAgency tour booking, modelled in Dafny

This project models the core of GlobusTourAgency, a WPF desktop application for a coach-tour agency. The core covers these parts:

- the tour catalogue with its search, country filter and sort orders;
- bookings: the client lookup, the free-seat check, the discounted price, the sequential request code, and the insert of the request together with the seat it takes;
- the request lifecycle: confirm or reject a new request, filter the list, sort it by date;
- the tour and bus-type editors with their ordered validation chains;
- the delete guards on tours and bus types;
- the role rules: which buttons and panels each role sees, and which handlers each role may use;
- the tour model's derived properties and its change-notifying setters.

`SqlDatabaseService` becomes a class `Store.Database` over an in-memory store. Each table is a sequence of rows, and each identity column is a counter. Every query is a function in module `Tables`. The reader loops, the code allocator, the booking transaction, the status update and the tour delete are methods of that class. Each method is proved equal to its query function.

Each window is a class with the fields the source updates, and each button handler is a method on it. Each handler states its outcome and the new state of the window and of the store. Pure rules such as the validation chains, the role gates and the sort-key switch are functions. Lemmas about those functions give the properties the application relies on:

- a guest or client sees only tours with free seats;
- request codes are the least free code, and a code is never reused before `Int32` wrap-around;
- a booking takes exactly one seat, or it changes nothing;
- "no access" at login is unreachable;
- the edit form round-trips a stored tour.

Modules follow the source files:

| module | source |
|---|---|
| `Users` | `Models/User.cs` |
| `Tours` | `Models/Tour.cs` |
| `Requests` | `Models/Request.cs` |
| `Tables`, `RequestCodes`, `Store` | `Database/SqlDatabaseService.cs` |
| `TourForms` | the validation shared by `CreateTourWindow.xaml.cs` and `EditTourWindow.xaml.cs` |
| `CreateTourWindows` | `CreateTourWindow.xaml.cs` |
| `EditTourWindows` | `EditTourWindow.xaml.cs` |
| `BusManagementWindows` | `BusManagementWindow.xaml.cs` |
| `AddEditBusWindows` | `AddEditBusWindow.xaml.cs` |
| `RequestsWindows` | `RequestsWindow.xaml.cs` |
| `CreateRequestWindows` | `CreateRequestWindow.xaml.cs` |
| `BookingWindows` | `BookingWindow.xaml.cs` |
| `MainWindows` | `MainWindow.xaml.cs` |
| `LoginWindows` | `LoginWindow.xaml.cs` |

Five helper modules stand in for .NET behaviour:

- `Wrappers`: `Option` and `Result`.
- `Text`: `int.TryParse`, `decimal.TryParse`, `Trim`, `ToLower`, `Contains` and `ToString`.
- `Lists`: filter and map.
- `Sorting`: a stable sort that stands for LINQ `OrderBy` and SQL `ORDER BY`.
- `SqlLike`: SQL Server's `LIKE` with its `%`, `_` and `[…]` wildcards.

Modelling decisions:

- `decimal` is Dafny `real`, which is exact.
- Dates are integer ticks.
- `DateTime.Now` is a parameter `now`.
- The culture's decimal separator and `decimal.ToString` are parameters.
- The result a modal dialog returns is a parameter of the handler that opens it.
- A confirmation message box is a `confirmed` parameter.
- Whether the booking transaction commits is a `commitSucceeds` parameter.
- A click on a collapsed or disabled button cannot happen, so such a handler `requires` its button to be visible and enabled.

## Model

| member | source | states |
|---|---|---|
| Users.User.IsAdmin | GlobusTourAgency/Models/User.cs:10 | The role is "Администратор" |
| Users.User.IsManager | GlobusTourAgency/Models/User.cs:11 | The role is "Менеджер" |
| Users.User.IsAuthorizedClient | GlobusTourAgency/Models/User.cs:12 | The role is "Авторизированный клиент" |
| Users.RolesExclusive | GlobusTourAgency/Models/User.cs:10-13 | No user is both admin and manager, admin and client, or manager and client; `IsGuest` is false for every user object |
| Tours.Tour.IsSpecialOffer | GlobusTourAgency/Models/Tour.cs:142 | A discount above 15 percent |
| Tours.Tour.IsFewSeats | GlobusTourAgency/Models/Tour.cs:143 | A positive capacity with free seats below a tenth of it; `Tours.FewSeatsIffTenfold` restates it over integers |
| Tours.Tour.DiscountInfo | GlobusTourAgency/Models/Tour.cs:148 | `-{Discount}%` for a positive discount, else empty; `Tours.DiscountInfoShownIff` states when it shows |
| Tours.Tour.FreeSeatsInfo | GlobusTourAgency/Models/Tour.cs:149 | `{FreeSeats}/{Capacity} мест`; `Tours.FreeSeatsInfoInjective` states that it tells tours apart |
| Tours.FewSeatsIffTenfold | GlobusTourAgency/Models/Tour.cs:143 | "Few seats" holds exactly when the capacity is positive and ten times the free seats is below it |
| Tours.DiscountInfoShownIff | GlobusTourAgency/Models/Tour.cs:148 | The discount badge is non-empty exactly when the discount is positive |
| Tours.FreeSeatsInfoInjective | GlobusTourAgency/Models/Tour.cs:149 | Two tours with the same seats caption have the same free seats and the same capacity |
| Tours.TourObject.constructor | GlobusTourAgency/Models/Tour.cs:9-24 | A new object holds the given properties and has raised no notification |
| Tours.TourObject.SetFreeSeats | GlobusTourAgency/Models/Tour.cs:25-38 | Assigning the current value changes nothing and notifies nothing; a new value is stored and notifies exactly FreeSeats, IsFewSeats and FreeSeatsInfo, in that order; the discount and the special-offer flag, which it does not notify, keep their values |
| Tours.TourObject.SetPhotoFileName | GlobusTourAgency/Models/Tour.cs:40-52 | The current value changes nothing; a new value is stored and notifies PhotoFileName then PhotoPath |
| Tours.TourObject.SetDiscount | GlobusTourAgency/Models/Tour.cs:54-67 | The current value changes nothing; a new value is stored and notifies Discount, IsSpecialOffer and DiscountInfo; the few-seats flag and the seats caption, which it does not notify, keep their values |
| Tables.NormaliseRole | GlobusTourAgency/Database/SqlDatabaseService.cs:49-57 | The role an authenticated user gets is always one of the three valid role names |
| Tables.NormaliseRoleKeepsValid | GlobusTourAgency/Database/SqlDatabaseService.cs:49-57 | A valid stored role is kept as it is; a NULL or any other role becomes "Авторизированный клиент" |
| Tables.Authenticate | GlobusTourAgency/Database/SqlDatabaseService.cs:30-75 | The result is null exactly when no user row matches both login and password; otherwise it is a matching row, with its role normalised |
| Tables.AuthenticatedRoleKnown | GlobusTourAgency/Database/SqlDatabaseService.cs:47-69 | Every user `Authenticate` returns holds a known role |
| Tables.ClientIdByName | GlobusTourAgency/Database/SqlDatabaseService.cs:384-401 | No id exactly when no user has that full name; otherwise the id of a user with it |
| Tables.SeatOfferOf | GlobusTourAgency/Database/SqlDatabaseService.cs:404-425 | A missing tour reads as zero seats, price and discount; an existing one as its stored values |
| Tables.DiscountedPrice | GlobusTourAgency/Database/SqlDatabaseService.cs:432-436 | A discount of zero or less leaves the price; a discount in (0, 100] gives a price between 0 and the list price |
| Tables.DiscountExamples | GlobusTourAgency/Database/SqlDatabaseService.cs:432-436 | 1000 at 10% costs 900, 85000 at 0% costs 85000, and 78300 at 20% costs 62640 |
| Tables.TakeSeat | GlobusTourAgency/Database/SqlDatabaseService.cs:461-464 | The seat decrement keeps the number of tour rows; the booked tour's free seats drop by exactly one, and every other row and every other column are unchanged |
| Tables.NewRequestRow | GlobusTourAgency/Database/SqlDatabaseService.cs:438-477 | The inserted row: the allocated code, the tour, the client id, the date, the status or "Новая", one person, the total price and an empty comment |
| Tables.TakeSeatKeepsSeatsInRange | GlobusTourAgency/Database/SqlDatabaseService.cs:427-464 | A decrement after the free-seat check keeps every tour's seats between 0 and its capacity |
| Tables.BookingCheck | GlobusTourAgency/Database/SqlDatabaseService.cs:384-436 | The booking stops at an unknown client, and otherwise stops exactly when the tour shows no free seat; when it passes, the tour has a free seat and the result carries the client's id and the tour's price reduced by its discount (`DiscountedPrice`) |
| Tables.MissingTourRefused | GlobusTourAgency/Database/SqlDatabaseService.cs:409-430 | Booking a tour that does not exist is refused as having no free seats |
| Tables.CountryNameOf | GlobusTourAgency/Database/SqlDatabaseService.cs:115 | The left join finds the name of a country with that id, and finds nothing exactly when there is none |
| Tables.BusTypeNameOf | GlobusTourAgency/Database/SqlDatabaseService.cs:116 | The left join finds the name of a bus type with that id, and finds nothing exactly when there is none |
| Tables.TourView | GlobusTourAgency/Database/SqlDatabaseService.cs:170-184 | The tour object carries the row's id, seats, capacity, name, date and price |
| Tables.SortOrderOf | GlobusTourAgency/Database/SqlDatabaseService.cs:134-144 | The selected order is start date ascending or the one whose caption was given; a caption that names no order sorts by start date, ascending |
| Tables.SortOrderOfCaption | GlobusTourAgency/Database/SqlDatabaseService.cs:133-143 | The caption of each order maps back to that order |
| Tables.DefaultSortIsStartDate | GlobusTourAgency/Database/SqlDatabaseService.cs:83-84 | The default `sortBy` sorts by start date, ascending |
| Tables.TourLeIsPreorder | GlobusTourAgency/Database/SqlDatabaseService.cs:246-258 | Each sort key is a total preorder, so sorting by it yields an ordered list |
| Tables.TestTours | GlobusTourAgency/Database/SqlDatabaseService.cs:261-337 | Every sample tour has free seats, and no more free seats than its capacity |
| Tables.StoredToursForGuestFree | GlobusTourAgency/Database/SqlDatabaseService.cs:129-132 | A stored tour listed in guest or client mode has a free seat |
| Tables.FallbackFromTestTours | GlobusTourAgency/Database/SqlDatabaseService.cs:197-216 | Every tour of the fallback list is a sample tour |
| Tables.GuestSeesOnlyFreeTours | GlobusTourAgency/Database/SqlDatabaseService.cs:119-216 | In guest or client mode every listed tour has a free seat, whether it comes from the table or from the fallback |
| Tables.CountryFilterOffIsNoFilter | GlobusTourAgency/Database/SqlDatabaseService.cs:124-127 | A blank country filter and "Все" list the same tours as no filter |
| Tables.AllToursSorted | GlobusTourAgency/Database/SqlDatabaseService.cs:134-146 | The tour list is ordered by the selected key, and by start date for an unknown caption |
| Tables.SortTours | GlobusTourAgency/Database/SqlDatabaseService.cs:134-146 | The stable `OrderBy`/`OrderByDescending` by the key the caption selects; `Tables.AllToursSorted` states the order |
| Tables.StoredTourPasses | GlobusTourAgency/Database/SqlDatabaseService.cs:119-132 | The `WHERE` clause: a blank search or a `LIKE '%text%'` match on the tour or country name; a country filter off or equal to the country; in guest or client mode a free seat |
| Tables.StoredTours | GlobusTourAgency/Database/SqlDatabaseService.cs:100-190 | The rows passing the `WHERE` clause, shown as tours, in the selected order; `Tables.StoredToursExactly` states its contents |
| Tables.FallbackTours | GlobusTourAgency/Database/SqlDatabaseService.cs:197-216 | The sample tours passing the case-insensitive search and country filters, in the selected order, with no free-seat filter |
| Tables.AllTours | GlobusTourAgency/Database/SqlDatabaseService.cs:83-218 | The stored tours, or the fallback when the query finds none; `Tables.GuestSeesOnlyFreeTours` and `Tables.AllToursSorted` state its properties |
| Tables.StoredToursExactly | GlobusTourAgency/Database/SqlDatabaseService.cs:100-190 | A tour is read exactly when some row passes the `LIKE` search, country and free-seat conditions and shows as that tour |
| Tables.InsertDistinct | GlobusTourAgency/Database/SqlDatabaseService.cs:351-353 | Inserting a name keeps every name already present and adds only that one |
| Tables.InsertDistinctSorted | GlobusTourAgency/Database/SqlDatabaseService.cs:351-353 | Inserting into a strictly increasing list keeps it strictly increasing |
| Tables.SortedDistinct | GlobusTourAgency/Database/SqlDatabaseService.cs:351-353 | `SELECT DISTINCT` keeps exactly the names present |
| Tables.SortedDistinctSorted | GlobusTourAgency/Database/SqlDatabaseService.cs:351-353 | `SELECT DISTINCT … ORDER BY` yields each name once, in increasing order |
| Tables.CountryList | GlobusTourAgency/Database/SqlDatabaseService.cs:340-367 | The list starts with "Все", and after it holds exactly the stored country names |
| Tables.CountryListSorted | GlobusTourAgency/Database/SqlDatabaseService.cs:350-353 | After "Все" the names are distinct and increasing |
| Tables.ClientList | GlobusTourAgency/Database/SqlDatabaseService.cs:809-833 | The users with the client role, ordered by full name; `Tables.ClientListExactly` and `Tables.ClientListProperties` state its contents and order |
| Tables.ClientListExactly | GlobusTourAgency/Database/SqlDatabaseService.cs:809-833 | A user is in the client list exactly when a stored row with the client role shows as that user |
| Tables.ClientListProperties | GlobusTourAgency/Database/SqlDatabaseService.cs:817-818 | Every listed user is an authorised client, and the list is ordered by full name |
| Tables.TourNameOf | GlobusTourAgency/Database/SqlDatabaseService.cs:618 | The inner join finds a tour name exactly when the request's tour exists |
| Tables.ClientNameOf | GlobusTourAgency/Database/SqlDatabaseService.cs:619 | The left join finds a client name exactly when the request's user exists |
| Tables.RequestView | GlobusTourAgency/Database/SqlDatabaseService.cs:660-670 | The request object keeps the row's id, tour and date, and always has a status: the row's own when it has one |
| Tables.RequestPasses | GlobusTourAgency/Database/SqlDatabaseService.cs:618-630 | The `WHERE` clause: the tour exists; an empty search or a `LIKE '%text%'` match on the client name, the tour name or the request id; a status filter off or equal to the status |
| Tables.AllRequests | GlobusTourAgency/Database/SqlDatabaseService.cs:597-688 | The requests passing the `WHERE` clause, shown as requests, newest first; `Tables.AllRequestsExactly` and `Tables.AllRequestsProperties` state its properties |
| Tables.AllRequestsExactly | GlobusTourAgency/Database/SqlDatabaseService.cs:609-672 | A request is listed exactly when a stored row on an existing tour passes the `LIKE` search and the status filter and shows as it |
| Tables.AllRequestsProperties | GlobusTourAgency/Database/SqlDatabaseService.cs:627-632 | The list is newest first, and with a status filter on, every listed request has that status |
| Tables.RequestWithoutTourHidden | GlobusTourAgency/Database/SqlDatabaseService.cs:618 | A request whose tour row is gone is not listed |
| Tables.TourById | GlobusTourAgency/Database/SqlDatabaseService.cs:744-790 | The result is null exactly when no row with that id has both its country and its bus type; otherwise it is such a row's tour object |
| Tables.SetRequestStatus | GlobusTourAgency/Database/SqlDatabaseService.cs:713-725 | Only the rows with that id get the new status; no other row or column changes |
| Tables.SetRequestStatusProperties | GlobusTourAgency/Database/SqlDatabaseService.cs:713-716 | Setting a status twice equals setting it once, request codes never change, and an unknown id changes nothing |
| Tables.HasRequestFor | GlobusTourAgency/Database/SqlDatabaseService.cs:895-910 | The `COUNT(*)` guard of the tour delete: some request points at the tour |
| Tables.RemoveTour | GlobusTourAgency/Database/SqlDatabaseService.cs:913-923 | `DELETE FROM Tours WHERE TourID = …`; `Tables.RemoveTourExactly` states what it keeps |
| Tables.RemoveTourExactly | GlobusTourAgency/Database/SqlDatabaseService.cs:913-923 | The delete keeps exactly the other tours, leaves none with that id, and changes nothing for an unknown id |
| Tables.CountryIdOf | GlobusTourAgency/CreateTourWindow.xaml.cs:229-240 | An unknown country name maps to id 1; a known one to the id of a country with that name |
| Tables.BusTypeIdOf | GlobusTourAgency/CreateTourWindow.xaml.cs:242-253 | An unknown bus type name maps to id 1; a known one to the id of a bus type with that name |
| Tables.UpdateTourRows | GlobusTourAgency/EditTourWindow.xaml.cs:182-198 | Every row with the original tour's id gets the edited columns; every other row stays as it was |
| Tables.UpdateTourRowsEffect | GlobusTourAgency/EditTourWindow.xaml.cs:182-198 | The update never changes a row's id or tour code, sets the edited columns on the target, and changes nothing for a missing id |
| Tables.ByTypeNameIsPreorder | GlobusTourAgency/BusManagementWindow.xaml.cs:43 | Ordering by type name is a total preorder |
| Tables.TourUsesBus | GlobusTourAgency/BusManagementWindow.xaml.cs:165-176 | The `COUNT(*)` guard of the bus-type delete: some tour uses the bus type |
| Tables.RemoveBusType | GlobusTourAgency/BusManagementWindow.xaml.cs:179-186 | `DELETE FROM BusTypes WHERE BusTypeID = …`; `Tables.RemoveBusTypeExactly` states what it keeps |
| Tables.RemoveBusTypeExactly | GlobusTourAgency/BusManagementWindow.xaml.cs:179-186 | The delete keeps exactly the other bus types and leaves none with that id |
| Tables.UpdateBusRows | GlobusTourAgency/AddEditBusWindow.xaml.cs:122-134 | Only rows with that bus type id get the new name, capacity and description |
| RequestCodes.LeastFreeFrom | GlobusTourAgency/Database/SqlDatabaseService.cs:512-525 | The result is the least free code in the range, with every code below it taken; none means every code in the range is taken |
| RequestCodes.MaxPositive | GlobusTourAgency/Database/SqlDatabaseService.cs:538-542 | The result is at least every positive code, is 0 or a stored code, and is never negative |
| RequestCodes.FirstFreeIn | GlobusTourAgency/Database/SqlDatabaseService.cs:554-563 | The probe returns the first free code in its range, or none when all of them are taken |
| RequestCodes.NextRequestCode | GlobusTourAgency/Database/SqlDatabaseService.cs:508-569 | The allocated code is a 32-bit `int` |
| RequestCodes.TierOneLeast | GlobusTourAgency/Database/SqlDatabaseService.cs:512-535 | When a code up to 1000 is free, the result is the least positive code not in use |
| RequestCodes.TierTwoAboveTierOne | GlobusTourAgency/Database/SqlDatabaseService.cs:538-544 | The second tier runs only when every code 1..1000 is taken, and then the maximum is at least 1000 |
| RequestCodes.TierTwoFresh | GlobusTourAgency/Database/SqlDatabaseService.cs:544-568 | Below `Int32.MaxValue`, the second tier returns `max + 1`, which is above 1000 and not in use |
| RequestCodes.TierTwoWraps | GlobusTourAgency/Database/SqlDatabaseService.cs:544-563 | At `Int32.MaxValue`, `max + 1` wraps to `Int32.MinValue`; the probe runs only if that code is taken |
| RequestCodes.NextRequestCodeFresh | GlobusTourAgency/Database/SqlDatabaseService.cs:508-569 | A code already in use is returned only when 1..1000, `Int32.MaxValue` and the 101 codes from `Int32.MinValue` on are all taken |
| RequestCodes.TierTwoTaken | GlobusTourAgency/Database/SqlDatabaseService.cs:546-564 | `max + 1` is in use only when the maximum is `Int32.MaxValue` and the candidate wrapped |
| RequestCodes.FallbackCode | GlobusTourAgency/Database/SqlDatabaseService.cs:571-582 | The `catch` path's code fits `int`; below the 32-bit limit it is at least 1000 and above every request id |
| RequestCodes.FallbackMissesLeastFree | GlobusTourAgency/Database/SqlDatabaseService.cs:508-582 | When a code below 1000 is free, the `catch` path's code is not the least free code the first tier is meant to return |
| RequestCodes.FallbackOnEmptyTable | GlobusTourAgency/Database/SqlDatabaseService.cs:508-582 | On an empty table the `catch` path gives 1000 where the first tier gives 1 |
| Store.BookingKeepsValid | GlobusTourAgency/Database/SqlDatabaseService.cs:466-490 | The request insert and the seat decrement keep codes within `int`, and keep ids below the identity counters |
| Store.Database.constructor | GlobusTourAgency/Database/SqlDatabaseService.cs:15-19 | The service over the given tables: it holds exactly those rows, and each identity counter starts above the ids in use. The source constructor only stores a connection string; the tables stand for the database it connects to |
| Store.Database.GetAllTours | GlobusTourAgency/Database/SqlDatabaseService.cs:83-218 | The list is the rows passing the `LIKE` search, country and free-seat conditions in the selected order, or the filtered sample tours when there are none |
| Store.Database.ReadTours | GlobusTourAgency/Database/SqlDatabaseService.cs:164-190 | The reader loop collects the tour object of each row passing the `WHERE` clause, in table order |
| Lists.MapSnoc | GlobusTourAgency/Database/SqlDatabaseService.cs:164-190 | One more row read appends its object to the end of the list built so far |
| Lists.InMapFilter | GlobusTourAgency/Database/SqlDatabaseService.cs:164-190 | An object is in the list a filtering reader builds exactly when some row passes the filter and maps to it |
| Store.Database.GetAllRequests | GlobusTourAgency/Database/SqlDatabaseService.cs:597-688 | The reader loop collects the joined requests that pass the `LIKE` search and the status filter, ordered newest first |
| Store.Database.GenerateSequentialRequestCode | GlobusTourAgency/Database/SqlDatabaseService.cs:508-569 | The code the two tiers and the probe loop produce is the allocator's `NextRequestCode` of the stored codes |
| Store.Database.CreateRequest | GlobusTourAgency/Database/SqlDatabaseService.cs:376-506 | An unknown client or no free seat fails with nothing written; a failed commit writes nothing; success appends exactly one request with the allocated code, the client id, the status (default "Новая") and the discounted price, and takes one seat of that tour |
| Store.Database.UpdateRequestStatus | GlobusTourAgency/Database/SqlDatabaseService.cs:705-734 | Sets the status of the rows with that id; true exactly when such a row existed |
| Store.Database.DeleteTour | GlobusTourAgency/Database/SqlDatabaseService.cs:887-934 | With a request on the tour, returns false and removes nothing; otherwise removes exactly that tour, true exactly when it existed |
| TourForms.CountryChoices | GlobusTourAgency/CreateTourWindow.xaml.cs:24-26 | The country picker offers exactly the stored country names other than "Все" |
| TourForms.FirstChoice | GlobusTourAgency/CreateTourWindow.xaml.cs:27 | `SelectedIndex = 0` selects an item of the picker, and selects nothing exactly when the picker is empty |
| TourForms.Selection | GlobusTourAgency/EditTourWindow.xaml.cs:50-71 | The picker selects the tour's own item when it is offered, and otherwise the first item |
| TourForms.Parse | GlobusTourAgency/CreateTourWindow.xaml.cs:66-113 | Each numeric box is read on its own: tour code, duration, capacity and free seats with `int.TryParse`, price and discount with `decimal.TryParse`; the tour code is a 32-bit integer. `EditTourWindows.FilledFormParses` reads a filled form back |
| TourForms.ValidateEdit | GlobusTourAgency/EditTourWindow.xaml.cs:83-143 | Accepted values are in range (duration, price and capacity positive; discount in [0,100]; 0 ≤ free seats ≤ capacity); the tour code is never the failure |
| TourForms.ValidateCreate | GlobusTourAgency/CreateTourWindow.xaml.cs:58-126 | Accepted values are in range and carry the parsed tour code |
| TourForms.ValidateCreateFirstFailure | GlobusTourAgency/CreateTourWindow.xaml.cs:58-127 | The create chain reports the first check that fails, in the screen's order, and accepts exactly the forms that pass every check |
| TourForms.ValidateEditFirstFailure | GlobusTourAgency/EditTourWindow.xaml.cs:83-144 | The edit chain reports the first failing check other than the tour code, and accepts exactly the forms passing all the others |
| TourForms.EditMatchesCreate | GlobusTourAgency/EditTourWindow.xaml.cs:83-144 | With a well-formed tour code, both screens give the same verdict; with a bad one and a name, the create screen stops at the code |
| CreateTourWindows.CreateTourWindow.constructor | GlobusTourAgency/CreateTourWindow.xaml.cs:13-46 | The pickers start at their first items, and the start date is thirty days from now |
| CreateTourWindows.CreateTourWindow.CreateButtonClick | GlobusTourAgency/CreateTourWindow.xaml.cs:54-158 | A failed check, or "No" to saving without a photo, inserts nothing; otherwise the insert runs, and `DialogResult` is true exactly when it wrote a row |
| CreateTourWindows.CreateTourWindow.CreateTourInDatabase | GlobusTourAgency/CreateTourWindow.xaml.cs:160-227 | Appends one row with the next id, the trimmed name and photo name and the looked-up ids; an empty picker throws, which writes nothing and returns false |
| CreateTourWindows.AppendKeepsIdsBelow | GlobusTourAgency/CreateTourWindow.xaml.cs:186-213 | An inserted row under the next identity value keeps ids below the counter, and one in range keeps the seats in range |
| EditTourWindows.FilledFormParses | GlobusTourAgency/EditTourWindow.xaml.cs:43-76 | The boxes filled from a tour read back as that tour's numbers |
| EditTourWindows.FilledFormRoundTrip | GlobusTourAgency/EditTourWindow.xaml.cs:43-144 | Saving the filled form unchanged passes validation, with the tour's own values |
| EditTourWindows.FilledFormOverbooked | GlobusTourAgency/EditTourWindow.xaml.cs:138-143 | A tour with more free seats than capacity cannot be saved unchanged |
| EditTourWindows.ValidateEditAccepts | GlobusTourAgency/EditTourWindow.xaml.cs:83-144 | A named form with a country that reads as a storable tour is accepted with its values |
| EditTourWindows.ValidateEditOverbooked | GlobusTourAgency/EditTourWindow.xaml.cs:138-143 | Free seats above capacity stop the edit chain at that check |
| EditTourWindows.UpdateKeepsTables | GlobusTourAgency/EditTourWindow.xaml.cs:168-214 | An update with values in range keeps every tour's seats in range, and keeps every id |
| EditTourWindows.EditTourWindow.constructor | GlobusTourAgency/EditTourWindow.xaml.cs:16-76 | The form is filled from the tour, and the pickers select the tour's country and bus type or fall back to the first item |
| EditTourWindows.EditTourWindow.SaveButtonClick | GlobusTourAgency/EditTourWindow.xaml.cs:79-166 | A failed check writes nothing; otherwise, with a date and a bus type picked, only the original tour's row is updated, and `DialogResult` is true exactly when that row existed; an empty date or bus-type picker writes nothing |
| EditTourWindows.EditTourWindow.UpdateTourInDatabase | GlobusTourAgency/EditTourWindow.xaml.cs:168-221 | Updates the edited columns of the original tour's row, never the tour code; an empty picker throws, which writes nothing and returns false |
| BusManagementWindows.BusList | GlobusTourAgency/BusManagementWindow.xaml.cs:43 | The list is a permutation of the bus-type table, ordered by type name |
| BusManagementWindows.RemoveBusTypeKeepsIds | GlobusTourAgency/BusManagementWindow.xaml.cs:179-186 | A delete keeps the remaining ids below the identity counter |
| BusManagementWindows.BusManagementWindow.constructor | GlobusTourAgency/BusManagementWindow.xaml.cs:25-31 | The window opens with the ordered bus list and no selection |
| BusManagementWindows.BusManagementWindow.LoadBuses | GlobusTourAgency/BusManagementWindow.xaml.cs:33-68 | The copy loop leaves exactly the ordered bus list, with no selection |
| BusManagementWindows.BusManagementWindow.AddBusButtonClick | GlobusTourAgency/BusManagementWindow.xaml.cs:70-88 | The list is reloaded exactly when the dialog returned true, and is otherwise unchanged |
| BusManagementWindows.BusManagementWindow.EditBusButtonClick | GlobusTourAgency/BusManagementWindow.xaml.cs:90-116 | With no selection nothing changes; the list is reloaded exactly when a bus was selected and the dialog returned true |
| BusManagementWindows.BusManagementWindow.DeleteBusButtonClick | GlobusTourAgency/BusManagementWindow.xaml.cs:118-155 | With no selection, or without "Yes", nothing is deleted; otherwise the guarded delete runs, and the list is reloaded exactly when it succeeded |
| BusManagementWindows.BusManagementWindow.DeleteBusFromDatabase | GlobusTourAgency/BusManagementWindow.xaml.cs:157-195 | A bus type a tour uses is not deleted (false); otherwise exactly its row is removed, true exactly when it existed |
| AddEditBusWindows.ValidateBus | GlobusTourAgency/AddEditBusWindow.xaml.cs:39-53 | A blank name fails first; then the capacity fails exactly when it does not parse as a positive integer; an accepted capacity is that integer |
| AddEditBusWindows.PrefilledBusValidates | GlobusTourAgency/AddEditBusWindow.xaml.cs:24-53 | The form prefilled from a bus with a name and a positive capacity passes validation, with that capacity |
| AddEditBusWindows.BusWritesKeepIds | GlobusTourAgency/AddEditBusWindow.xaml.cs:83-147 | The insert under the next id and the update keep every id below the counter |
| AddEditBusWindows.UpdateBusRowsTargetsOne | GlobusTourAgency/AddEditBusWindow.xaml.cs:122-134 | An unknown id changes nothing; otherwise the target row carries the new values |
| AddEditBusWindows.AddEditBusWindow.constructor | GlobusTourAgency/AddEditBusWindow.xaml.cs:14-33 | Edit mode holds exactly when a bus is given, and then the boxes show its values |
| AddEditBusWindows.AddEditBusWindow.SaveButtonClick | GlobusTourAgency/AddEditBusWindow.xaml.cs:35-81 | A failed check writes nothing; in add mode one row is appended, and in edit mode only the bus's row is updated; `DialogResult` is true exactly on a write |
| AddEditBusWindows.AddEditBusWindow.AddBusToDatabase | GlobusTourAgency/AddEditBusWindow.xaml.cs:83-112 | Appends one row with the next id and the trimmed name and description |
| AddEditBusWindows.AddEditBusWindow.UpdateBusInDatabase | GlobusTourAgency/AddEditBusWindow.xaml.cs:114-147 | Updates the row with the bus's id, with trimmed strings; true exactly when it existed |
| RequestsWindows.ButtonsFor | GlobusTourAgency/RequestsWindow.xaml.cs:25-38 | Create shows exactly for an admin; confirm and reject show exactly for a manager or admin; with no user none shows |
| RequestsWindows.PassesFilters | GlobusTourAgency/RequestsWindow.xaml.cs:99-117 | Unless the search is empty, its lower case occurs in the lower-cased client name, the id or the lower-cased tour name; unless the picker shows "Все" or nothing, the status equals it |
| RequestsWindows.FilteredIndices | GlobusTourAgency/RequestsWindow.xaml.cs:99-123 | The filtered list is the order-preserving subsequence of exactly the requests that pass the case-insensitive search and the status filter |
| RequestsWindows.ByDateIsPreorder | GlobusTourAgency/RequestsWindow.xaml.cs:150-152 | Ordering by request date, ascending or descending, is a total preorder |
| RequestsWindows.DateOrder | GlobusTourAgency/RequestsWindow.xaml.cs:148-158 | The sorted list is a permutation of the shown one, ordered by request date in the chosen direction |
| RequestsWindows.RequestsWindow.constructor | GlobusTourAgency/RequestsWindow.xaml.cs:19-41 | The window sets its button visibility by role and shows every request, with no selection |
| RequestsWindows.RequestsWindow.LoadRequests | GlobusTourAgency/RequestsWindow.xaml.cs:43-76 | All requests under the default filters are loaded and all of them are shown, with no selection |
| RequestsWindows.RequestsWindow.ConfirmEnabled | GlobusTourAgency/RequestsWindow.xaml.cs:78-93 | Confirm and reject are enabled exactly on a selected request whose status is "Новая" |
| RequestsWindows.RequestsWindow.Refill | GlobusTourAgency/RequestsWindow.xaml.cs:119-123 | The clear-and-add loop leaves exactly the given items, with no selection |
| RequestsWindows.RequestsWindow.ApplyFilters | GlobusTourAgency/RequestsWindow.xaml.cs:95-132 | The shown list becomes the filtered subsequence for the current search and status |
| RequestsWindows.RequestsWindow.SearchTextChanged | GlobusTourAgency/RequestsWindow.xaml.cs:134-137 | The new search text is applied |
| RequestsWindows.RequestsWindow.StatusFilterChanged | GlobusTourAgency/RequestsWindow.xaml.cs:139-142 | The new status filter is applied |
| RequestsWindows.RequestsWindow.SortByDateButtonClick | GlobusTourAgency/RequestsWindow.xaml.cs:144-169 | The direction flips, and the shown list is reordered by date in the new direction |
| RequestsWindows.RequestsWindow.ConfirmButtonClick | GlobusTourAgency/RequestsWindow.xaml.cs:200-243 | A found tour with no free seats refuses the confirm with nothing changed; otherwise the stored status becomes "Подтверждена", and the shown status follows only on success; no seat count changes |
| RequestsWindows.RequestsWindow.RejectButtonClick | GlobusTourAgency/RequestsWindow.xaml.cs:245-286 | Without "Yes" nothing changes; otherwise the stored status becomes "Отклонена", and the shown status follows only on success; no seat count changes |
| RequestsWindows.RequestsWindow.CreateRequestButtonClick | GlobusTourAgency/RequestsWindow.xaml.cs:288-313 | Only an admin may open the form; the list is reloaded exactly when it returned true |
| CreateRequestWindows.OfferedTours | GlobusTourAgency/CreateRequestWindow.xaml.cs:28-29 | Exactly the listed tours with a free seat are offered |
| CreateRequestWindows.CreateRequestWindow.constructor | GlobusTourAgency/CreateRequestWindow.xaml.cs:21-36 | The pickers hold the client list and the guest-mode tours with a free seat, with nothing selected |
| CreateRequestWindows.CreateRequestWindow.SelectTour | GlobusTourAgency/CreateRequestWindow.xaml.cs:28-29 | A tour picked from the picker has a free seat |
| CreateRequestWindows.CreateRequestWindow.CreateButtonClick | GlobusTourAgency/CreateRequestWindow.xaml.cs:56-115 | No client, no tour or no seat stops before any write; otherwise the request carries the client's full name, the tour's id and "Новая", and `DialogResult` is true exactly when `CreateRequest` succeeded; the next request id advances by one exactly on success |
| BookingWindows.BookingWindow.constructor | GlobusTourAgency/BookingWindow.xaml.cs:14-25 | The name box holds the signed-in user's full name, and is empty without a user |
| BookingWindows.BookingWindow.BookButtonClick | GlobusTourAgency/BookingWindow.xaml.cs:27-68 | An empty name stops before any request; otherwise the request carries the window's tour id and "Новая", and `DialogResult` is true exactly when `CreateRequest` succeeded; the next request id advances by one exactly on success |
| MainWindows.MainPanels | GlobusTourAgency/MainWindow.xaml.cs:38-82 | The management panel, bus management and requests show exactly for a manager or admin; create tour shows exactly for an admin |
| MainWindows.TourCardButtons | GlobusTourAgency/MainWindow.xaml.cs:269-329 | The Book button shows exactly for a signed-in user with a known role; edit and delete show exactly for an admin |
| MainWindows.TourBackground | GlobusTourAgency/MainWindow.xaml.cs:337-344 | Gold exactly for a discount above 15; pink exactly for few seats without that; white otherwise |
| MainWindows.QueryFor | GlobusTourAgency/MainWindow.xaml.cs:91-118 | Anyone but a manager or admin queries in guest or client mode with no search, no country and the default sort; staff pass the box and the picker items |
| MainWindows.NonManagerSeesFreeToursByDate | GlobusTourAgency/MainWindow.xaml.cs:91-118 | For anyone but a manager or admin, every card shows a tour with a free seat, in start-date order |
| MainWindows.MainWindow.constructor | GlobusTourAgency/MainWindow.xaml.cs:21-30 | The window is a guest window exactly when no user is given |
| MainWindows.MainWindow.LoadTours | GlobusTourAgency/MainWindow.xaml.cs:84-145 | The cards become the tour list for the user's query |
| MainWindows.MainWindow.CopyTours | GlobusTourAgency/MainWindow.xaml.cs:134-138 | The `foreach` copies exactly the listed tours, in order |
| MainWindows.MainWindow.FiltersChanged | GlobusTourAgency/MainWindow.xaml.cs:346-359 | A change of search, country or sort reloads the cards for the new query |
| MainWindows.MainWindow.BookButtonClick | GlobusTourAgency/MainWindow.xaml.cs:361-399 | A missing tour or one without free seats is refused before the dialog; the cards are reloaded exactly when the dialog returned true |
| MainWindows.MainWindow.CreateTourButtonClick | GlobusTourAgency/MainWindow.xaml.cs:401-428 | Only an admin may create; reload exactly when the dialog returned true |
| MainWindows.MainWindow.BusManagementButtonClick | GlobusTourAgency/MainWindow.xaml.cs:430-450 | The bus window opens exactly for a manager or admin |
| MainWindows.MainWindow.RequestsButtonClick | GlobusTourAgency/MainWindow.xaml.cs:452-472 | The requests window opens exactly for a manager or admin |
| MainWindows.MainWindow.EditTourButtonClick | GlobusTourAgency/MainWindow.xaml.cs:474-512 | Only an admin may edit; a tour `GetTourById` does not find is refused; reload exactly when the dialog returned true |
| MainWindows.MainWindow.DeleteTourButtonClick | GlobusTourAgency/MainWindow.xaml.cs:514-553 | Only an admin may delete, and only after "Yes"; the guarded `DeleteTour` runs, and the cards are reloaded exactly when it succeeded |
| LoginWindows.GuestLogin | GlobusTourAgency/LoginWindow.xaml.cs:17-22 | The guest button opens the main window with no user |
| LoginWindows.ManagerLogin | GlobusTourAgency/LoginWindow.xaml.cs:24-57 | A blank login (after `Trim`) or an empty password is refused first; then an unmatched login is refused; an admitted user is the authenticated one, with a known role |
| LoginWindows.NoAccessUnreachable | GlobusTourAgency/LoginWindow.xaml.cs:36-50 | Because roles are normalised when read, "no access" never happens: matching credentials always open the main window |
| LoginWindows.SignedInUserCanBook | GlobusTourAgency/LoginWindow.xaml.cs:40-45 | Whoever signs in sees the Book button, and sees the management panel exactly when they are a manager or admin |
| LoginWindows.GuestSeesNoControls | GlobusTourAgency/LoginWindow.xaml.cs:17-22 | A guest sees neither the Book button nor the management panel |
| Text.TryParseInt32 | GlobusTourAgency/CreateTourWindow.xaml.cs:66 | `int.TryParse` accepts only a 32-bit value; `Text.ParseIntToString` reads back what `ToString` wrote |
| Text.TryParseDecimal | GlobusTourAgency/CreateTourWindow.xaml.cs:89 | `decimal.TryParse` accepts only values within the range of `decimal` |
| Text.DigitsValueCons | GlobusTourAgency/CreateTourWindow.xaml.cs:89 | A leading digit weighs ten to the power of the number of digits after it |
| Text.UnsignedDigits | GlobusTourAgency/CreateTourWindow.xaml.cs:89 | Reading a run of digits after a value read so far appends them to it in base ten |
| Text.DigitsParse | GlobusTourAgency/CreateTourWindow.xaml.cs:89-97 | A non-empty run of decimal digits within the range of `decimal` reads as its integer value, for either separator |
| Text.NegatedDigitsParse | GlobusTourAgency/CreateTourWindow.xaml.cs:89-97 | The same digits with a minus sign before them or after them read as the value negated |
| Text.TrimByNoop | GlobusTourAgency/LoginWindow.xaml.cs:28 | Trimming a string that neither starts nor ends with white space leaves it unchanged |
| Text.TrailingSignAccepted | GlobusTourAgency/CreateTourWindow.xaml.cs:97 | A sign after the digits is read as the number's sign: "0-" reads as 0 |
| Text.SpacedTrailingSignAccepted | GlobusTourAgency/CreateTourWindow.xaml.cs:89 | White space may come before a trailing sign: "12,5 -" reads as -12.5 |
| Text.TwoSignsRejected | GlobusTourAgency/CreateTourWindow.xaml.cs:89 | A sign at both ends fails: "-5-" does not parse |
| Text.ParseIntToString | GlobusTourAgency/EditTourWindow.xaml.cs:47-73 | `int.TryParse` reads back every 32-bit integer `ToString` wrote |
| Text.BlankIffTrimmedEmpty | GlobusTourAgency/LoginWindow.xaml.cs:26-29 | A string is blank exactly when trimming leaves it empty |
| SqlLike.LikeContains | GlobusTourAgency/Database/SqlDatabaseService.cs:121-154 | `column LIKE '%' + text + '%'` with the text unescaped, so `%`, `_` and `[…]` in it are wildcards |
| SqlLike.LikeContainsLiteral | GlobusTourAgency/Database/SqlDatabaseService.cs:121-154 | For a search text without `%`, `_` or `[`, the `LIKE` search holds exactly when the text occurs in the column |
| SqlLike.UnderscoreMatchesAnyText | GlobusTourAgency/Database/SqlDatabaseService.cs:624-641 | A search for `_` matches every non-empty name |
| SqlLike.PercentInSearch | GlobusTourAgency/Database/SqlDatabaseService.cs:121-154 | A search for "50%" matches every text that contains "50", whatever follows it |
| SqlLike.PercentSearchExample | GlobusTourAgency/Database/SqlDatabaseService.cs:121-154 | A search for "50%" matches "Скидка 50 лет", which does not contain the text "50%" |
| Sorting.SortByIdempotent | GlobusTourAgency/Database/SqlDatabaseService.cs:246-258 | Sorting an already sorted list again leaves it unchanged, for a total and transitive order |
| Sorting.SortByStable | GlobusTourAgency/Database/SqlDatabaseService.cs:246-258 | The sort is stable: the elements that tie with any given element keep their input order |
| Sorting.InsertTies | GlobusTourAgency/Database/SqlDatabaseService.cs:246-258 | Inserting an element puts it before the elements it ties with and leaves their order alone |

## Left out

- SQL and ADO.NET plumbing is not modelled: connections, command text, the connection string and the recursive CTE. Each query is stated by what it returns over the in-memory tables.
- Storage failures are not modelled, except the commit of the booking transaction (`commitSucceeds`). Every other write succeeds, and the `catch` blocks that map exceptions to `false`, `null` or an empty list are not modelled. One exception is modelled: an empty bus-type or date picker makes `.ToString()` or `.Value` throw, so those helpers return false with nothing written.
- `GenerateSequentialRequestCode` runs its `catch` block whenever the first query throws. Its recursive CTE counts to 1000, past SQL Server's default `MAXRECURSION` of 100, so this likely happens on every call (see Findings). `RequestCodes.FallbackCode` models that path, and the rest of the model uses the intended allocator, `RequestCodes.NextRequestCode`. The second fallback, a code built from the clock and `Random` when the `MAX(RequestID)` query also throws, is not modelled.
- A guest or client may hit the `GetAllTours` exception fallback (the filtered sample tours) only when the query throws, and that path is not modelled. The fallback for an empty result is modelled.
- Console logging, message boxes, brushes, bitmaps and the text of the status caption are not modelled. The view-details box of the requests screen (`ViewDetailsButton_Click`) and the logout and cancel buttons are not modelled either; they only show text or close windows.
- Concurrency is not modelled. Bookings run one at a time, so the free-seat read outside the transaction races with nobody.
- Time-dependent text is not modelled: `DaysUntilStart`, `IsStartingSoon`, `FormattedPrice`, date formats and `FormattedRequestDate`. The start dates of the sample tours are offsets from the `now` parameter.
- `Tour.PhotoPath` and `GetDefaultImagePath` are not modelled because they probe the file system. `SetPhotoFileName` records the `PhotoPath` notification only.
- The SQL collation is not modelled. Text equality and `LIKE` are ordinal and case-sensitive. `ToLower` and `OrdinalIgnoreCase` fold ASCII, Latin-1 and basic Cyrillic letters only.
- The `NameAscending` sort order compares tour names ordinally. The fallback's `OrderBy(t => t.Name)` (SqlDatabaseService.cs line 255) uses the culture's string comparer, which can order names differently.
- Tables.StoredTourPasses and Tables.RequestPasses compare the country and the status exactly; SQL `=` ignores trailing blanks. In `LIKE`, a `[` with no closing `]` matches nothing, and a `]` right after `[` closes the class.
- Ties in `ORDER BY` are unspecified in SQL; the model keeps table order (a stable sort, proved in `Sorting.SortByStable`).
- Text.TryParseDecimal: its own contract states only that the result lies within the range of `decimal`; the value is pinned by `Text.DigitsParse` and `Text.NegatedDigitsParse` for plain digits and by example lemmas for separators and trailing signs. `decimal.TryParse` is modelled as optional white space; one sign, leading or trailing; digits; and an optional separator with more digits. Thousands separators, exponents, currency symbols and rounding beyond 28 digits are not modelled. The culture's `decimal.ToString` is the `render` parameter.
- EditTourWindows.FilledFormRoundTrip and EditTourWindows.FilledFormOverbooked take the decimal round trip as a `requires`: `decimal.TryParse` reads back what `render` wrote. `render` stands for `decimal.ToString`, so only the integer round trip (`Text.ParseIntToString`) is proved.
- Each window's `Enter` and `Select*` methods stand for the user typing or picking. The picker items the user can choose are the ones the window offers.
- `GetAllBusTypes` is not modelled; neither screen in the core calls it. The bus list query is modelled in `BusManagementWindows.BusList`.
- Tables.TourView, Tables.RequestView and Tables.AllRequests treat tour and request columns as NOT NULL, except a request's status and a user's role. `TourRow` and `RequestRow` have no NULL name, date, code, duration or price. So the reader defaults are not modelled: a NULL tour name reads as "Нет названия", a NULL start or request date as `DateTime.Now`, and a NULL number as 0 (SqlDatabaseService.cs lines 172-178, 666-669, 773-779). Neither is the sort position of a request with a NULL date. It shows `ISNULL(RequestDate, GETDATE())` (line 615) but sorts on the raw column (line 632), so it comes last under `DESC`.
- `BusType.Description` is a string; a NULL description, which `LoadBuses` reads as the empty string, is stored here as the empty string.
- `BookingWindows.BookingWindow.BookButtonClick`: the booking leaves the request's tour name unset (null); the model uses the empty string, which `CreateRequest` never reads.
- `RequestsWindows.RequestsWindow.ConfirmButtonClick` and `RejectButtonClick`: the grid keeps its selection after a status change, so the selected request stays the same object.
- The `DeleteTour` error message box is not modelled.
- MainWindow's `SearchTextBox_TextChanged`, `CountryFilterComboBox_SelectionChanged` and `SortComboBox_SelectionChanged` share one method, `FiltersChanged`, which takes the three control values.
- `RequestCodes.NextRequestCode` states only that the code fits `int`. The tier properties are proved in the lemmas beside it.
- `RequestsWindow` is given the same database as the main window. The source makes a new `SqlDatabaseService` over the same connection string, which reaches the same tables.

## Findings

| source | as written | input that shows it | evidently intended | confidence | as-written member | corrected member |
|---|---|---|---|---|---|---|
| GlobusTourAgency/Database/SqlDatabaseService.cs:512-582 | The recursive CTE counts to 1000, past SQL Server's default `MAXRECURSION` of 100, so the first query throws and the `catch` returns `ISNULL(MAX(RequestID), 0) + 1000` | An empty `Requests` table: the code is 1000 | The least free code in 1..1000, here 1 | likely; not executed | RequestCodes.FallbackMissesLeastFree | RequestCodes.TierOneLeast |
