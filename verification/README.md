# Wheels in C# — rental lifecycle and pricing, modelled in Dafny

Wheels in C# is an ASP.NET Core site for renting cars, motorcycles and bicycles by the hour.
This project models its core:

- the rental service (create, complete, cancel, extend, availability, pricing, listings);
- the vehicle service (status bookkeeping, queries, add/update/delete);
- the rental API controller's guards;
- the "My rentals" page;
- the vehicle registration page;
- the entities behind them: `Rental`, `Vehicle` and its `Car`, `Motorcycle` and `Bicycle` variants.

The database context is a class, `Data.ApplicationDbContext`, with two tables:

- `Vehicles` is a map from key to vehicle. Every row fits the table's column limits (`Data.FitsVehicleColumns`): Model nvarchar(100) NOT NULL, LicensePlate nvarchar(15), Description nvarchar(50). A row that breaks one is refused with a `DbUpdateException`;
- `Rentals` is a sequence of rows. A sort by start time returns rows with equal starts in sequence order. This is one of the orders the database may produce; SQL Server's `ORDER BY` guarantees none.

The services and pages are classes holding a reference to the context. Their methods change it in place, and each states the whole new state.

Modelling conventions:

- A `DateTime` is its count of 100-ns ticks.
- Money is an exact `real`.
- "Now" is a parameter.

Two pricing rules coexist, and both are kept as written:

- the service rule, `ServiceRentalCost`, bills whole started hours times the hourly rate, with no category factor;
- the entity rule, `CalculateRentalCost`, bills fractional hours times the rate times 1.0, 1.1 or 1.2.

The central invariants:

- `RentalServices.NoDoubleBooking`: no two ACTIVE rentals of one vehicle overlap as half-open intervals;
- `RentalServices.StatusesOnlyAdvance`: ACTIVE may move to COMPLETED or CANCELLED, and nothing leaves a terminal status;
- `VehicleServices.FleetInLockstep`: `Available == (Status == AVAILABLE)` for every vehicle.

Each state-changing rental operation of the service, the controller and the page is proved to preserve the first two (CreateRentalAsync: on the new-rental path only). The service operations that write a vehicle's status keep the third. `AddVehicleAsync`, `UpdateVehicleAsync` and the registration page keep it when the vehicle they store is in lockstep. Each rejection is proved to change nothing. `Scenarios` runs the services on a fresh database and pins down the observable outcomes.

Files, in dependency order:

- `wrappers.dfy`: Option, Result, Outcome and the exceptions.
- `time.dfy`, `text.dfy`, `linq.dfy`.
- `rental.dfy`, `vehicle.dfy`, `database.dfy`.
- `vehicle_service.dfy`, `rental_service.dfy`.
- `rental_controller.dfy`, `my_rentals.dfy`, `vehicle_create.dfy`.
- `scenarios.dfy`.

Behaviour of the code worth knowing:

- The service price applies no category multiplier and no rounding to cents. So a Car at 25.00 an hour for two hours costs 50.00 (`Scenarios.EndToEnd`).
- Extending does not look at the rental's status, so a COMPLETED rental can be extended (`Scenarios.ExtendAfterCompletion`).
- Completing a rental does not check for other ACTIVE rentals of the vehicle before releasing it.
- The availability test first requires the vehicle's status to be AVAILABLE, and creating a rental sets it to RENTED. So while one booking is active, every further booking of that vehicle is refused, even one that only touches it (`Scenarios.TouchingBookingWhileRented`).
- The "My rentals" page handlers complete or cancel any rental for any signed-in caller; only the API controller checks ownership (`Scenarios.PageCompletesAnotherCustomersRental`).
- A rental completed before its start time is billed a negative amount (`MyRentalsPage.EarlyReturnChargesNegative`).
- The registration page's annotations are looser than `Vehicle`'s:
  - the page requires Model of 2..100 characters and Description of 20..500;
  - `Vehicle` declares 5..20 and 10..50.
  - The database column for Description is nvarchar(50), so it refuses a Description over 50. A form with 51..500 characters passes the page, the insert throws, and the page shows "Erro ao cadastrar veículo: …" and stores nothing.
  - See `VehicleCreatePage.PageAdmitsVehicleTheEntityRejects` and `VehicleCreatePage.CreateModel.OnPostAsync`.

## Model

| member | source | states |
|---|---|---|
| Time.CeilingHours | Services/RentalService.cs:176-177 | Math.Ceiling of TotalHours: the least h with ticks <= h hours, so (h-1) hours < ticks |
| Time.CeilingHoursBoundsTotalHours | Services/RentalService.cs:106-107 | the whole hours billed are the ceiling of the fractional hours: h-1 < TotalHours <= h |
| Time.CeilingHoursMonotone | Services/RentalService.cs:176-177 | a longer span never needs fewer whole hours |
| Text.ToLowerChar | Models/Vehicle.cs:21 | ToLower yields no upper-case letter, changes only upper-case letters, and keeps white space as white space |
| Linq.Where | Services/RentalService.cs:53 | the result keeps exactly the occurrences that satisfy the predicate (multiset equality per element) |
| Linq.WhereSnoc | Services/RentalService.cs:53 | filtering a sequence with one more element at the end appends that element exactly when it passes |
| Linq.WhereCountsMatches | Services/RentalService.cs:224-240 | Where keeps as many elements as there are positions whose element passes |
| Linq.InsertDesc | Services/RentalService.cs:54 | inserting into a descending sequence keeps it descending and adds exactly one occurrence |
| Linq.PrependSorted | Services/RentalService.cs:54 | a descending sequence stays descending behind an element whose key is at least its first key |
| Linq.OrderByDescending | Services/RentalService.cs:209 | the result is sorted by descending key and is a permutation of the input |
| Linq.OrderByDescendingOfSorted | Pages/MyRentals.cshtml.cs:108 | sorting an already sorted sequence returns it unchanged (stability) |
| Linq.Select | Pages/MyRentals.cshtml.cs:98 | one element per input element, the i-th being f applied to the i-th input |
| Linq.SelectKeepsOrder | Pages/MyRentals.cshtml.cs:98-108 | projecting with a map that carries the sort key keeps the descending order |
| Linq.Skip | Services/RentalService.cs:210 | drops the first n elements, clamped to [0, length]; the rest keep their positions |
| Linq.Take | Services/RentalService.cs:211 | keeps a prefix: exactly n elements for 0 <= n <= length, everything for a count of at least the length, nothing for a negative count |
| Linq.SkipTakeKeepsOrder | Services/RentalService.cs:208-211 | a page cut out of a sorted sequence is sorted |
| Rentals.TerminalStatusesAreFinal | Models/Rental.cs:26-31 | the only move allowed out of COMPLETED or CANCELLED is staying put |
| Rentals.TryParseRentalStatus | Services/RentalService.cs:192 | Enum.TryParse accepts only a member name, spelled exactly, or a string of digits whose value fits in Int32; a digit string beyond Int32 and the empty string fail |
| Rentals.TryParseRejectsOverflow | Services/RentalService.cs:192 | a digit string of eleven or more digits without a leading zero overflows Int32 and does not parse |
| Rentals.DigitsValueAtLeast | Services/RentalService.cs:192 | a digit string without a leading zero is worth at least 10 to the power of its length less one |
| Rentals.TryParseStatusNameRoundTrip | Services/RentalService.cs:192 | parsing ToString of a status gives that status back |
| Rentals.StatusNameInjective | Models/Rental.cs:26-31 | distinct statuses have distinct names |
| Rentals.TryParseIsCaseSensitive | Services/RentalService.cs:192 | "active" is not a status: the parse is case-sensitive |
| Vehicles.Discriminator | Data/ApplicationDbContext.cs:28-31 | each variant is stored under one of "Car", "Motorcycle", "Bicycle" |
| Vehicles.WithDefaults | Models/Vehicle.cs:18-44 | a vehicle built without setting Available and Status starts available, AVAILABLE and in lockstep |
| Vehicles.Slug | Models/Vehicle.cs:21 | same length as the input, character by character the lower-cased character or '-' for a space; no spaces or capitals remain |
| Vehicles.NomeSlug | Models/Vehicle.cs:20-21 | null exactly when Model is null; otherwise as long as Model and free of spaces |
| Vehicles.SlugIdempotent | Models/Vehicle.cs:21 | slugging a slug changes nothing |
| Vehicles.SlugKeepsModelAnnotations | Models/Vehicle.cs:11-21 | the slug of a Model that meets its Required and 5..20 length annotations meets them too |
| Vehicles.BicycleRentalCost | Models/Bicycle.cs:11-15 | zero for an empty interval, non-negative for a forward interval with a non-negative rate, negative for a reversed one |
| Vehicles.MotorcycleRentalCost | Models/Motorcycle.cs:8-12 | 1.1 times the Bicycle price, with the same zero, sign and reversal facts |
| Vehicles.CarRentalCost | Models/Car.cs:12-16 | 1.2 times the Bicycle price, with the same zero, sign and reversal facts |
| Vehicles.CalculateRentalCost | Models/Vehicle.cs:46 | the virtual call dispatches on the variant: factor times rate times fractional hours |
| Vehicles.RentalCostMonotone | Models/Car.cs:14-15 | with a non-negative rate a later end never costs less |
| Vehicles.RentalCostAdditive | Models/Car.cs:14-15 | splitting an interval at any instant splits the price exactly |
| Vehicles.RentalCostDoubles | Models/Car.cs:15 | doubling the duration doubles the price |
| Vehicles.RentalCostShiftInvariant | Models/Bicycle.cs:13-14 | only the interval's length matters |
| Data.ApplicationDbContext.constructor | Data/ApplicationDbContext.cs:13-17 | an empty database is well formed and both identity columns start at 1 |
| VehicleServices.IsVehicleAvailable | Services/VehicleService.cs:79-83 | true exactly when the vehicle exists, is flagged available and has status AVAILABLE |
| VehicleServices.GetAvailableVehicles | Services/VehicleService.cs:31-36 | exactly the vehicles IsVehicleAvailable accepts, unchanged |
| VehicleServices.GetVehiclesByType | Services/VehicleService.cs:38-43 | exactly the vehicles whose discriminator equals the type string under the database collation (case and trailing spaces ignored), unchanged; a string matching none of the three types gives none |
| VehicleServices.TypeFilterIgnoresCase | Services/VehicleService.cs:38-43 | "car " selects the same vehicles as "Car", and "car" selects exactly the cars |
| VehicleServices.WithStatus | Services/VehicleService.cs:68-77 | the vehicle gets the status and the matching flag with every other field kept; other vehicles are untouched; a missing key changes nothing; lockstep is preserved |
| VehicleServices.VehicleRentalCost | Services/VehicleService.cs:85-91 | fails with "Vehicle not found" exactly for a missing vehicle; otherwise the variant's own price |
| VehicleServices.VehicleService.constructor | Services/VehicleService.cs:16-19 | the service works on the context it is given |
| VehicleServices.VehicleService.AddVehicleAsync | Services/VehicleService.cs:45-50 | succeeds exactly when the vehicle fits the column limits; then it is stored under a fresh identity key and GetVehicleById on that key returns it; otherwise a DbUpdateException and nothing changes |
| VehicleServices.VehicleService.UpdateVehicleAsync | Services/VehicleService.cs:52-56 | a stored key has its row replaced; an unset key 0 is inserted under the next identity key; any other missing key fails as a concurrency error and changes nothing; a row breaking a column limit fails with a DbUpdateException and changes nothing; lockstep is kept when the new row is in lockstep |
| VehicleServices.VehicleService.DeleteVehicleAsync | Services/VehicleService.cs:58-66 | a missing key is ignored; a referenced vehicle is refused by the restricting foreign key with a DbUpdateException carrying Entity Framework's outer message, and nothing changes; otherwise only that key is removed |
| VehicleServices.VehicleService.UpdateVehicleStatusAsync | Services/VehicleService.cs:68-77 | the Vehicles table becomes WithStatus of the old one; rentals and keys are untouched |
| RentalServices.OverlapIsConflict | Services/RentalService.cs:165-168 | every half-open overlap is caught by the three-clause test |
| RentalServices.ConflictIsOverlap | Services/RentalService.cs:165-168 | for proper intervals the three-clause test is exactly half-open overlap |
| RentalServices.TouchingIntervalsDoNotConflict | Services/RentalService.cs:165-168 | intervals that only touch do not conflict |
| RentalServices.IsVehicleAvailableForRental | Services/RentalService.cs:151-169 | acceptance implies the vehicle is available and no ACTIVE non-excluded booking of it overlaps; conversely an available vehicle with no such overlap is accepted for a proper interval |
| RentalServices.RentedVehicleIsNeverAvailable | Services/RentalService.cs:153-154 | a vehicle whose status is not AVAILABLE is refused for every interval |
| RentalServices.ServiceRentalCost | Services/RentalService.cs:176-178 | zero for an empty interval, non-negative for a forward one, at least one hour's rate for any non-empty forward interval |
| RentalServices.ServiceCostBracketsFractionalCost | Services/RentalService.cs:176-178 | the service price is at least the fractional-hour price and less than it plus one hour's rate |
| RentalServices.ServiceRentalCostMonotone | Services/RentalService.cs:176-178 | with a non-negative rate a later end never costs less |
| RentalServices.ServiceRentalCostSplitNeverCheaper | Services/RentalService.cs:142-145 | pricing an extension separately never costs less than pricing the whole interval at once |
| RentalServices.SplitPricingCanChargeMore | Services/RentalService.cs:142-145 | 90 minutes then 30 more are billed as three hours, while the whole two hours are billed as two |
| RentalServices.CarRulesCompared | Services/RentalService.cs:176-178 | 61 minutes of a Car at 10.00 cost 20.00 by the service rule and 12.20 by the Car rule |
| RentalServices.RentalCostFor | Services/RentalService.cs:171-179 | fails with "Vehicle not found" exactly for a missing vehicle; otherwise the service price with the vehicle's rate |
| RentalServices.FindRental | Services/RentalService.cs:23-30 | the position of the first row with the key, or none exactly when no row has it |
| RentalServices.GetAllRentals | Services/RentalService.cs:32-39 | every rental, as a permutation sorted by descending start |
| RentalServices.GetUserRentals | Services/RentalService.cs:49-56 | exactly the caller's rentals, sorted by descending start |
| RentalServices.GetRentalsByVehicle | Services/RentalService.cs:58-65 | exactly the vehicle's rentals, sorted by descending start |
| RentalServices.StatusFilterOf | Services/RentalService.cs:190-196 | a null, empty or unparsable status string filters nothing |
| RentalServices.GetFilteredRentals | Services/RentalService.cs:181-213 | every row returned is stored and matches all three filters; the page is sorted by descending start and holds at most the count and at most pageSize rows; a first page as large as the table holds every matching row, with multiplicity |
| RentalServices.FirstPageHoldsAll | Services/RentalService.cs:208-212 | a first page at least as large as the table is a permutation of the filtered rows |
| RentalServices.GetRentalsCount | Services/RentalService.cs:215-241 | the number of rows that pass the same three filters; all rows when there is no filter |
| RentalServices.FilteredRentalsCount | Services/RentalService.cs:215-241 | the filtered rows are as many as the table positions whose row passes the filters |
| RentalServices.PageSizeFromCount | Services/RentalService.cs:208-211 | a page holds min(pageSize, count - skipped) rows, or none past the end |
| RentalServices.BookingKeepsNoDoubleBooking | Services/RentalService.cs:69-80 | appending a booking that passed the availability test keeps ACTIVE bookings of each vehicle disjoint |
| RentalServices.ClosingKeepsNoDoubleBooking | Services/RentalService.cs:99 | moving one rental out of ACTIVE keeps the invariant |
| RentalServices.ExtensionKeepsNoDoubleBooking | Services/RentalService.cs:136-146 | moving an end later keeps the invariant when the added stretch passed the test with the rental itself excluded |
| RentalServices.UpdatePathCanDoubleBook | Services/RentalService.cs:82-85 | the unchecked update branch can turn a disjoint table into a double-booked one |
| RentalServices.StatusesOnlyAdvanceTransitive | Services/RentalService.cs:96-99 | the lifecycle relation composes: two allowed steps are one allowed step |
| RentalServices.VehiclesAfterCancel | Services/RentalService.cs:124-127 | the vehicle is released, AVAILABLE and flagged available, only when the rental had not started; otherwise the table is unchanged |
| RentalServices.RentalService.constructor | Services/RentalService.cs:17-21 | the service shares its context with the vehicle service it calls |
| RentalServices.RentalService.CreateRentalAsync | Services/RentalService.cs:67-89 | a new rental is refused and nothing changes when unavailable; otherwise it is appended ACTIVE with a fresh key and the service price, and its vehicle becomes RENTED; a non-zero key overwrites its row unchecked or fails as the database would; preserves the invariants on the new-rental path |
| RentalServices.RentalService.CompleteRentalAsync | Services/RentalService.cs:91-112 | a missing or non-ACTIVE rental is refused with no change; otherwise it becomes COMPLETED, ends now, is re-priced over [start, now) and its vehicle becomes AVAILABLE; preserves the invariants |
| RentalServices.RentalService.CancelRentalAsync | Services/RentalService.cs:114-130 | a missing or non-ACTIVE rental is refused with no change; otherwise only its status becomes CANCELLED and the vehicles become VehiclesAfterCancel; preserves the invariants |
| RentalServices.RentalService.ExtendRentalAsync | Services/RentalService.cs:132-149 | refused with no change for a missing rental, a non-later end or an unavailable stretch; otherwise the end moves and the cost grows by exactly the stretch's price, status untouched; preserves the invariants |
| RentalControllers.CreateRentalDateGuard | Controller/RentalController.cs:35-43 | passes exactly when start < end and start >= now minus five minutes, and names the first guard that fails |
| RentalControllers.GraceWindowBoundary | Controller/RentalController.cs:40-43 | a start exactly five minutes ago passes and one tick earlier is refused |
| RentalControllers.CreateRentalFailure | Controller/RentalController.cs:100-107 | an InvalidOperationException becomes 400 with its message, any other exception 500 |
| RentalControllers.Summarize | Controller/RentalController.cs:156-164 | a summary carries the rental's key, times, cost and status name |
| RentalControllers.RentalController.constructor | Controller/RentalController.cs:19-27 | the controller reaches one database through both services and knows the user store's identifiers |
| RentalControllers.RentalController.CreateRental | Controller/RentalController.cs:29-108 | each guard's rejection in order, with no change; a missing or unknown caller id gets Unauthorized; Ok exactly when every guard passes, and then the caller's ACTIVE rental at the service price is appended and the vehicle is RENTED; preserves the invariants |
| RentalControllers.RentalController.CalculateCost | Controller/RentalController.cs:110-129 | rejects an improper interval and a missing vehicle; otherwise the service price, at least one hour's rate |
| RentalControllers.RentalController.CheckAvailability | Controller/RentalController.cs:131-146 | returns the availability test's verdict, which implies no overlapping ACTIVE booking |
| RentalControllers.RentalController.GetMyRentals | Controller/RentalController.cs:148-172 | one summary per rental of the caller, latest start first; none for a null caller |
| RentalControllers.RentalController.CompleteRental | Controller/RentalController.cs:174-198 | NotFound for a missing rental and Forbid for another customer's, neither reaching the service; success only for the owner; preserves the invariants |
| RentalControllers.RentalController.CancelRental | Controller/RentalController.cs:200-224 | NotFound for a missing rental and Forbid for another customer's, neither reaching the service; success only for the owner; preserves the invariants |
| RentalControllers.NullUserOwnsNothing | Controller/RentalController.cs:153-154 | a null caller id selects no rental |
| MyRentalsPage.TerminalRentalOffersNoAction | Pages/MyRentals.cshtml.cs:106-107 | a COMPLETED or CANCELLED rental is neither returnable nor cancellable |
| MyRentalsPage.CancelButtonMatchesRelease | Pages/MyRentals.cshtml.cs:107 | the cancel button is offered exactly when cancelling releases the vehicle |
| MyRentalsPage.EarlyReturnChargesNegative | Pages/MyRentals.cshtml.cs:106 | a rental starting an hour or more ahead can be returned and is then billed a negative amount |
| MyRentalsPage.Summarize | Pages/MyRentals.cshtml.cs:98-107 | a row carries the rental's key, times, cost, status name and both button flags |
| MyRentalsPage.LoadUserRentals | Pages/MyRentals.cshtml.cs:94-109 | one row per rental of the caller, in the service's order, which the second sort keeps: latest start first |
| MyRentalsPage.ListingRowsAreTheCallersRentals | Pages/MyRentals.cshtml.cs:94-109 | every row comes from a stored rental of the caller, with its times, cost and flags |
| MyRentalsPage.MyRentalsModel.constructor | Pages/MyRentals.cshtml.cs:22-24 | the listing and both messages start empty |
| MyRentalsPage.MyRentalsModel.OnGetAsync | Pages/MyRentals.cshtml.cs:26-44 | without a caller id only the error message is set; otherwise the listing is loaded |
| MyRentalsPage.MyRentalsModel.ShowOutcome | Pages/MyRentals.cshtml.cs:58-65 | the shared tail of both post handlers: a service error sets only ErrorMessage to its message; success sets only SuccessMessage and reloads the caller's listing from the current tables |
| MyRentalsPage.MyRentalsModel.OnPostCompleteRentalAsync | Pages/MyRentals.cshtml.cs:46-68 | without a caller id Unauthorized and nothing changes; a service error lands in ErrorMessage with the database, SuccessMessage and the listing unchanged; otherwise the service's completion with no ownership check, the success message with ErrorMessage unchanged, and a reloaded listing |
| MyRentalsPage.MyRentalsModel.OnPostCancelRentalAsync | Pages/MyRentals.cshtml.cs:70-92 | without a caller id Unauthorized and nothing changes; a service error lands in ErrorMessage with the database, SuccessMessage and the listing unchanged; otherwise the service's cancellation with no ownership check, the success message with ErrorMessage unchanged, and a reloaded listing |
| VehicleCreatePage.CreateVehicleByType | Pages/Vehicles/Create.cshtml.cs:191-271 | a vehicle exactly for the three type strings, of the matching variant, in lockstep, with the shared fields copied and the documented defaults |
| VehicleCreatePage.PageAdmitsVehicleTheEntityRejects | Pages/Vehicles/Create.cshtml.cs:26-34 | a form with a 2..4-character Model or a Description over 50 passes the page and builds a vehicle that breaks Vehicle's own annotations; with a Description over 50 the vehicle also breaks its database column |
| VehicleCreatePage.GetVehicleTypeName | Pages/Vehicles/Create.cshtml.cs:180-189 | Carro, Moto, Bicicleta for the three types, Veículo for anything else |
| VehicleCreatePage.BuiltVehiclesHaveDistinctTypeNames | Pages/Vehicles/Create.cshtml.cs:180-189 | every buildable vehicle gets a specific name, and two get the same name exactly when they are the same variant |
| VehicleCreatePage.GetStatusDisplayName | Pages/Vehicles/Create.cshtml.cs:167-178 | every status has a non-empty label |
| VehicleCreatePage.StatusDisplayNamesDistinct | Pages/Vehicles/Create.cshtml.cs:167-178 | no two statuses share a label |
| VehicleCreatePage.CreateModel.constructor | Pages/Vehicles/Create.cshtml.cs:17-20 | no model errors and no TempData yet |
| VehicleCreatePage.CreateModel.OnPostAsync | Pages/Vehicles/Create.cshtml.cs:117-151 | an invalid form redisplays with nothing changed; an unknown type adds one model error and stores nothing; a vehicle the database refuses is caught, adds "Erro ao cadastrar veículo: " and the exception's message as a model error and stores nothing; it redirects to /Index exactly when the form is valid, the type known and the vehicle fits the columns, and then the vehicle is added under a fresh key and the TempData messages are set |
| Scenarios.WholeHoursBilledExactly | Services/RentalService.cs:176-178 | a whole number of hours is billed without rounding up |
| Scenarios.BookOnce | Services/RentalService.cs:67-89 | on a fresh database a two-hour booking of a 25.00 car succeeds at 50.00 and the car becomes RENTED |
| Scenarios.BookRefuseAndComplete | Services/RentalService.cs:91-112 | an overlapping second booking is refused; completing the first at its end costs 50.00 and frees the car |
| Scenarios.EndToEnd | Services/RentalService.cs:67-112 | after completion the refused booking succeeds at 50.00, and completing the first rental again is refused |
| Scenarios.TouchingBookingWhileRented | Services/RentalService.cs:151-169 | a booking that only touches an active one, so does not conflict, is still refused |
| Scenarios.ExtendAfterCompletion | Services/RentalService.cs:132-149 | a COMPLETED rental is extended by one hour: still COMPLETED, new end, cost 75.00 |
| Scenarios.PageCompletesAnotherCustomersRental | Pages/MyRentals.cshtml.cs:46-68 | one customer completes another customer's rental from the page |

## Left out

- Floating point and decimal: `TimeSpan.TotalHours` is a double and prices are decimals. The model uses exact integers and reals, so rounding of doubles and decimal overflow are not modelled.
- Concurrency: there is no locking in the source, and its availability test and writes are separate steps. Each operation is modelled as one sequential atomic step, and nothing is claimed about races.
- Time zones: the service completes with `DateTime.Now` and cancels with `DateTime.UtcNow`, and the page uses `DateTime.Now`. The model passes a single `now`.
- Identity: users are a set of known identifiers, and the caller's claim is an optional string. `UserManager`, roles and sign-in are not modelled.
- Entity Framework:
  - `Include`, change tracking and `SaveChangesAsync` are abstracted into direct table updates;
  - the customer foreign key of a rental is not checked;
  - a failed save carries Entity Framework Core's own outer message (`Exceptions.SaveFailedMessage`, `Exceptions.ConcurrencyFailedMessage`); the store error wrapped as its inner exception is not modelled;
  - the order in which rows are written within one operation is not observable in the model.
- CreateRentalAsync with a non-zero key is modelled as the unchecked overwrite it is. The invariants are proved for the new-rental path only, and `UpdatePathCanDoubleBook` shows why.
- Inserting with an explicit non-zero key through AddVehicleAsync: the model always issues the next identity key.
- RentalServices.GetFilteredRentals: the offset `(pageNumber - 1) * pageSize` is an Int32 product in the source and wraps around for large page numbers; the model computes it as an unbounded integer.
- String comparisons inside queries: the model applies the collation only to the vehicle-type filter. Customer ids are compared exactly, and Identity ids never differ only in case or trailing spaces. `Text.CollationEquals` covers ASCII and Latin-1 case only.
- Rentals.TryParseRentalStatus: leading and trailing white space, signs, comma-separated flag lists and `ignoreCase` are not modelled.
- Text.ToLowerChar and Text.IsWhiteSpace: cover ASCII and Latin-1 only, not the full Unicode tables.
- Linq.Skip and Linq.Take: follow LINQ to Objects for negative counts; a database provider's handling of a negative offset is not modelled.
- Tie order of the service's sorted queries: SQL Server returns rows with equal start times in an order it does not guarantee. The model fixes one such order, sequence order, through the stable `OrderByDescending`. Stability matters for a result only on the "My rentals" page, whose second sort runs in memory, where LINQ's sort is stable.
- VehicleCreatePage.AnnotationsHold:
  - the `[Url]` check is approximated as a case-insensitive http://, https:// or ftp:// prefix;
  - the framework's conversion of empty strings to null is folded into the `Present` test;
  - the messages the annotations add to ModelState are not modelled, only whether the form is valid.
- The registration page also sets `CurrentLocation`, `Mileage`, `Color` and `RegistrationDate` on the vehicle. `Models/Vehicle.cs` declares none of these, so the model validates them on the form and does not store them.
- Unreachable catch path: the controller's `InvalidOperationException` catch after its own availability test, since the service repeats the same test on the same state.
- VehicleServices.VehicleService.AddVehicleAsync: of the database's failures only the three column limits are modelled. Null in the other NOT NULL columns and the identity value a failed insert may consume are not.
- Customer ids are never null in the model. In the source `Rental.CustomerId` is a nullable string: CreateRentalAsync accepts a rental without a customer, and GetUserRentalsAsync(null) becomes an `IS NULL` query that returns exactly those rows.
- Exceptions from the database inside the pages' `OnGetAsync`, and every logger call.
- RentalControllers.ActionResult.Forbid: ASP.NET Core reads its string argument as an authentication scheme. The model records the string and does not model the scheme lookup.
- GetAllVehiclesAsync, GetAllRentalsQueryable and GetAllVehiclesQueryable return whole tables, which are the model's fields themselves.
- VehicleCreatePage.GetStatusDisplayName: its contract states only that labels are non-empty; distinctness is the separate lemma `StatusDisplayNamesDistinct`.
