/**
 * The "My rentals" page (Pages/MyRentals.cshtml.cs): the caller's rentals as
 * view models with the two action flags, and the handlers that complete or
 * cancel a rental from the page.
 */
module MyRentalsPage {
  import opened Wrappers
  import opened Exceptions
  import opened Time
  import opened Linq
  import opened Rentals
  import opened Vehicles
  import opened Data
  import opened VehicleServices
  import opened RentalServices

  datatype RentalSummaryViewModel = RentalSummaryViewModel(
    id: int,
    vehicleModel: string,
    startDate: DateTime,
    endDate: DateTime,
    totalCost: real,
    status: string,
    canBeReturned: bool,
    canBeCanceled: bool)

  /** The page's "return" button: an ACTIVE rental whose end has not passed. */
  predicate CanBeReturned(r: Rental, now: DateTime)
  {
    r.status == ACTIVE && r.endTime >= now
  }

  /** The page's "cancel" button: an ACTIVE rental that has not started. */
  predicate CanBeCanceled(r: Rental, now: DateTime)
  {
    r.status == ACTIVE && r.startTime > now
  }

  /** A COMPLETED or CANCELLED rental offers neither button. */
  lemma TerminalRentalOffersNoAction(r: Rental, now: DateTime)
    requires r.status != ACTIVE
    ensures !CanBeReturned(r, now) && !CanBeCanceled(r, now)
  {
  }

  /**
   * The cancel button is offered exactly when cancelling releases the
   * vehicle: for an ACTIVE rental whose vehicle exists, the vehicle comes
   * back AVAILABLE if the rental could be cancelled from the page, and the
   * table is untouched otherwise.
   */
  lemma CancelButtonMatchesRelease(vehicles: map<int, Vehicle>, r: Rental, now: DateTime)
    requires r.status == ACTIVE && r.vehicleId in vehicles
    ensures CanBeCanceled(r, now) ==> VehiclesAfterCancel(vehicles, r, now)[r.vehicleId].status == AVAILABLE
    ensures !CanBeCanceled(r, now) ==> VehiclesAfterCancel(vehicles, r, now) == vehicles
  {
  }

  /**
   * A rental that starts an hour or more in the future can be returned from
   * the page, and returning it then bills a negative amount: the service
   * prices [start, now), which runs backwards.
   */
  lemma EarlyReturnChargesNegative(r: Rental, hourlyRate: real, now: DateTime)
    requires r.status == ACTIVE && now + TicksPerHour <= r.startTime <= r.endTime && hourlyRate > 0.0
    ensures CanBeReturned(r, now) && CanBeCanceled(r, now)
    ensures ServiceRentalCost(hourlyRate, r.startTime, now) < 0.0
  {
    var h := CeilingHours(now - r.startTime);
    assert h <= -1;
    NegativeScale(h, hourlyRate);
  }

  lemma NegativeScale(h: int, rate: real)
    requires h <= -1 && rate > 0.0
    ensures h as real * rate < 0.0
  {
    assert h as real * rate == -((-h) as real * rate);
    assert (-h) as real * rate >= rate by {
      assert (-h) as real * rate - rate == ((-h) as real - 1.0) * rate;
    }
  }

  /** One row of the listing. */
  function Summarize(vehicles: map<int, Vehicle>, r: Rental, now: DateTime): (row: RentalSummaryViewModel)
    ensures row.id == r.id && row.startDate == r.startTime && row.endDate == r.endTime && row.totalCost == r.totalCost
    ensures row.canBeReturned == CanBeReturned(r, now) && row.canBeCanceled == CanBeCanceled(r, now)
    ensures row.status == StatusName(r.status)
  {
    var model := if r.vehicleId in vehicles && vehicles[r.vehicleId].model.Some?
                 then vehicles[r.vehicleId].model.value else "Veículo não disponível";
    RentalSummaryViewModel(r.id, model, r.startTime, r.endTime, r.totalCost, StatusName(r.status),
                           CanBeReturned(r, now), CanBeCanceled(r, now))
  }

  function SummaryStart(row: RentalSummaryViewModel): int
  {
    row.startDate
  }

  /**
   * LoadUserRentals: the caller's rentals from the service, projected and
   * sorted by start again. The service already sorted them by the same key,
   * so the second, stable sort leaves the projection as it was.
   */
  function LoadUserRentals(vehicles: map<int, Vehicle>, rentals: seq<Rental>, userId: string, now: DateTime)
    : (rows: seq<RentalSummaryViewModel>)
    ensures rows == Select(GetUserRentals(rentals, Some(userId)), r => Summarize(vehicles, r, now))
    ensures |rows| == |GetUserRentals(rentals, Some(userId))|
    ensures SortedDesc(rows, SummaryStart)
  {
    var mine := GetUserRentals(rentals, Some(userId));
    var projected := Select(mine, r => Summarize(vehicles, r, now));
    SelectKeepsOrder(mine, r => Summarize(vehicles, r, now), StartKey, SummaryStart);
    OrderByDescendingOfSorted(projected, SummaryStart);
    OrderByDescending(projected, SummaryStart)
  }

  /** Every row of the listing is one of the caller's rentals, with its own times, cost and flags. */
  lemma ListingRowsAreTheCallersRentals(vehicles: map<int, Vehicle>, rentals: seq<Rental>, userId: string,
                                        now: DateTime, i: int)
    requires 0 <= i < |LoadUserRentals(vehicles, rentals, userId, now)|
    ensures var row := LoadUserRentals(vehicles, rentals, userId, now)[i];
            exists r :: r in rentals && r.customerId == userId && row.id == r.id &&
                        row.startDate == r.startTime && row.endDate == r.endTime && row.totalCost == r.totalCost &&
                        row.canBeReturned == CanBeReturned(r, now) && row.canBeCanceled == CanBeCanceled(r, now)
  {
    var mine := GetUserRentals(rentals, Some(userId));
    var r := mine[i];
    assert r in multiset(mine);
    assert r in rentals && r.customerId == userId;
  }

  /** IsNullOrEmpty on the NameIdentifier claim. */
  predicate IsNullOrEmpty(userId: Option<string>)
  {
    userId.None? || userId.value == ""
  }

  datatype PageResult = Page | Unauthorized

  class MyRentalsModel {
    const rentalService: RentalService
    const db: ApplicationDbContext
    var userRentals: seq<RentalSummaryViewModel>
    var errorMessage: string
    var successMessage: string

    ghost predicate Valid()
      reads rentalService, db
    {
      rentalService.db == db && rentalService.Valid()
    }

    constructor (rentalService: RentalService)
      ensures this.rentalService == rentalService && this.db == rentalService.db
      ensures userRentals == [] && errorMessage == "" && successMessage == ""
    {
      this.rentalService := rentalService;
      this.db := rentalService.db;
      userRentals := [];
      errorMessage := "";
      successMessage := "";
    }

    /** OnGetAsync: the caller's listing, or an error message when the caller has no id. */
    method OnGetAsync(userId: Option<string>, now: DateTime)
      modifies this
      ensures IsNullOrEmpty(userId) ==>
                errorMessage == "Usuário não identificado." && userRentals == old(userRentals)
      ensures !IsNullOrEmpty(userId) ==>
                userRentals == LoadUserRentals(db.vehicles, db.rentals, userId.value, now) &&
                errorMessage == old(errorMessage)
      ensures successMessage == old(successMessage)
    {
      if IsNullOrEmpty(userId) {
        errorMessage := "Usuário não identificado.";
        return;
      }
      userRentals := LoadUserRentals(db.vehicles, db.rentals, userId.value, now);
    }

    /**
     * The tail shared by the two post handlers: a service error lands in
     * ErrorMessage; on success the message is set and the list reloaded.
     */
    method ShowOutcome(outcome: Outcome<Exception>, success: string, userId: string, now: DateTime)
      modifies this
      ensures outcome.Fail? ==>
                errorMessage == outcome.error.message && successMessage == old(successMessage) && userRentals == old(userRentals)
      ensures outcome.Pass? ==>
                && successMessage == success && errorMessage == old(errorMessage)
                && userRentals == LoadUserRentals(db.vehicles, db.rentals, userId, now)
    {
      match outcome {
        case Fail(e) =>
          errorMessage := e.message;
        case Pass =>
          successMessage := success;
          userRentals := LoadUserRentals(db.vehicles, db.rentals, userId, now);
      }
    }

    /**
     * OnPostCompleteRentalAsync. Without a caller id nothing happens.
     * Otherwise the service completes the rental, whoever its customer is:
     * the page checks no ownership. A service error lands in ErrorMessage.
     */
    method OnPostCompleteRentalAsync(rentalId: int, userId: Option<string>, now: DateTime) returns (result: PageResult)
      requires Valid()
      modifies this, db
      ensures Valid()
      ensures IsNullOrEmpty(userId) ==> result == Unauthorized && unchanged(db) && unchanged(this)
      ensures !IsNullOrEmpty(userId) ==> result == Page
      ensures !IsNullOrEmpty(userId) ==>
                match FindRental(old(db.rentals), rentalId)
                case None =>
                  errorMessage == "Rental not found" && successMessage == old(successMessage)
                  && unchanged(db) && userRentals == old(userRentals)
                case Some(k) =>
                  var r := old(db.rentals)[k];
                  if r.status != ACTIVE then
                    && errorMessage == "Only active rentals can be completed"
                    && successMessage == old(successMessage)
                    && unchanged(db) && userRentals == old(userRentals)
                  else
                    && successMessage == "Veículo devolvido com sucesso!"
                    && errorMessage == old(errorMessage)
                    && r.vehicleId in old(db.vehicles)
                    && db.rentals == old(db.rentals)[k := r.(status := COMPLETED, endTime := now,
                         totalCost := ServiceRentalCost(old(db.vehicles)[r.vehicleId].hourlyRate, r.startTime, now))]
                    && db.vehicles == WithStatus(old(db.vehicles), r.vehicleId, AVAILABLE)
                    && userRentals == LoadUserRentals(db.vehicles, db.rentals, userId.value, now)
      ensures NoDoubleBooking(old(db.rentals)) ==> NoDoubleBooking(db.rentals)
      ensures StatusesOnlyAdvance(old(db.rentals), db.rentals)
    {
      if IsNullOrEmpty(userId) {
        return Unauthorized;
      }
      var outcome := rentalService.CompleteRentalAsync(rentalId, now);
      ShowOutcome(outcome, "Veículo devolvido com sucesso!", userId.value, now);
      result := Page;
    }

    /**
     * OnPostCancelRentalAsync. Without a caller id nothing happens.
     * Otherwise the service cancels the rental, whoever its customer is. A
     * service error lands in ErrorMessage.
     */
    method OnPostCancelRentalAsync(rentalId: int, userId: Option<string>, now: DateTime) returns (result: PageResult)
      requires Valid()
      modifies this, db
      ensures Valid()
      ensures IsNullOrEmpty(userId) ==> result == Unauthorized && unchanged(db) && unchanged(this)
      ensures !IsNullOrEmpty(userId) ==> result == Page
      ensures !IsNullOrEmpty(userId) ==>
                match FindRental(old(db.rentals), rentalId)
                case None =>
                  errorMessage == "Rental not found" && successMessage == old(successMessage)
                  && unchanged(db) && userRentals == old(userRentals)
                case Some(k) =>
                  var r := old(db.rentals)[k];
                  if r.status != ACTIVE then
                    && errorMessage == "Only active rentals can be cancelled"
                    && successMessage == old(successMessage)
                    && unchanged(db) && userRentals == old(userRentals)
                  else
                    && successMessage == "Aluguel cancelado com sucesso!"
                    && errorMessage == old(errorMessage)
                    && db.rentals == old(db.rentals)[k := r.(status := CANCELLED)]
                    && db.vehicles == VehiclesAfterCancel(old(db.vehicles), r, now)
                    && userRentals == LoadUserRentals(db.vehicles, db.rentals, userId.value, now)
      ensures NoDoubleBooking(old(db.rentals)) ==> NoDoubleBooking(db.rentals)
      ensures StatusesOnlyAdvance(old(db.rentals), db.rentals)
    {
      if IsNullOrEmpty(userId) {
        return Unauthorized;
      }
      var outcome := rentalService.CancelRentalAsync(rentalId, now);
      ShowOutcome(outcome, "Aluguel cancelado com sucesso!", userId.value, now);
      result := Page;
    }
  }
}
