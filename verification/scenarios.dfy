/**
 * Whole runs of the services on a fresh database, with the observable
 * results pinned down. Times are counted in hours from midnight of the
 * booking day.
 */
module Scenarios {
  import opened Wrappers
  import opened Time
  import opened Rentals
  import opened Vehicles
  import opened Data
  import opened VehicleServices
  import opened RentalServices
  import opened MyRentalsPage

  function At(hour: int): DateTime
  {
    hour * TicksPerHour
  }

  /** A whole number of hours is billed exactly: no partial hour is rounded up. */
  lemma WholeHoursBilledExactly(rate: real, a: int, b: int)
    requires a <= b
    ensures ServiceRentalCost(rate, At(a), At(b)) == (b - a) as real * rate
  {
    var h := CeilingHours(At(b) - At(a));
    assert At(b) - At(a) == (b - a) * TicksPerHour;
    assert h == b - a;
  }

  /** A car at 25.00 an hour, as the registration page would store it. */
  function SampleCar(): (v: Vehicle)
    ensures v.hourlyRate == 25.0 && v.status == AVAILABLE && Lockstep(v) && FitsVehicleColumns(v)
  {
    WithDefaults(Car(Some("Gasolina"), 5, Some("Manual"), true), Some("Onix"), 2022, 25.0,
                 "ABC1D23", "Hatch compacto, quatro portas", "https://example.com/onix.png", 0)
  }

  function Booking(customerId: string, vehicleId: int, startHour: int, endHour: int): Rental
  {
    Rental(0, customerId, vehicleId, At(startHour), At(endHour), 0.0, ACTIVE, None)
  }

  /** A fresh database holding the car, booked by ana from 10:00 to 12:00. */
  method BookOnce() returns (db: ApplicationDbContext, rentalService: RentalService, firstCost: real)
    ensures fresh(db) && rentalService.db == db && rentalService.Valid()
    ensures firstCost == 50.0
    ensures |db.rentals| == 1 && db.rentals[0].id == 1 && db.rentals[0].status == ACTIVE
    ensures db.rentals[0].customerId == "ana" && db.rentals[0].vehicleId == 1
    ensures db.rentals[0].startTime == At(10) && db.rentals[0].endTime == At(12) && db.rentals[0].totalCost == 50.0
    ensures 1 in db.vehicles && db.vehicles[1].status == RENTED && db.vehicles[1].hourlyRate == 25.0
  {
    db := new ApplicationDbContext();
    var vehicleService := new VehicleService(db);
    rentalService := new RentalService(db, vehicleService);
    var car := vehicleService.AddVehicleAsync(SampleCar());
    assert car.Success? && car.value.id == 1 && db.vehicles == map[1 := car.value] && db.rentals == [];

    assert IsVehicleAvailableForRental(db.vehicles, db.rentals, 1, At(10), At(12), None);
    WholeHoursBilledExactly(25.0, 10, 12);
    var first := rentalService.CreateRentalAsync(Booking("ana", 1, 10, 12));
    assert first.Success? && first.value.id == 1 && first.value.status == ACTIVE;
    assert db.rentals == [first.value];
    firstCost := first.value.totalCost;
  }

  /**
   * The first half of the run: book the car from 10:00 to 12:00, refuse a
   * second customer asking for 11:00 to 13:00, and complete the first
   * rental at 12:00. Two started hours at 25.00 cost 50.00 (no category
   * factor is applied).
   */
  method BookRefuseAndComplete() returns (db: ApplicationDbContext, rentalService: RentalService,
                                          firstCost: real, secondRefused: bool, completedCost: real)
    ensures fresh(db) && rentalService.db == db && rentalService.Valid()
    ensures firstCost == 50.0
    ensures secondRefused
    ensures completedCost == 50.0
    ensures |db.rentals| == 1 && db.rentals[0].id == 1 && db.rentals[0].status == COMPLETED
    ensures db.rentals[0].vehicleId == 1 && db.rentals[0].endTime == At(12) && db.rentals[0].totalCost == 50.0
    ensures 1 in db.vehicles && db.vehicles[1].status == AVAILABLE && db.vehicles[1].available
    ensures db.vehicles[1].hourlyRate == 25.0
  {
    db, rentalService, firstCost := BookOnce();

    RentedVehicleIsNeverAvailable(db.vehicles, db.rentals, 1, At(11), At(13), None);
    var second := rentalService.CreateRentalAsync(Booking("bruno", 1, 11, 13));
    secondRefused := second.Failure?;

    assert FindRental(db.rentals, 1) == Some(0);
    WholeHoursBilledExactly(25.0, 10, 12);
    var completed := rentalService.CompleteRentalAsync(1, At(12));
    completedCost := db.rentals[0].totalCost;
  }

  /**
   * The whole run: after the first rental is completed the car is free,
   * the refused request now succeeds, and completing the first rental a
   * second time is refused.
   */
  method EndToEnd() returns (firstCost: real, secondRefused: bool, completedCost: real,
                             rebookCost: real, repeatCompleteRefused: bool)
    ensures firstCost == 50.0
    ensures secondRefused
    ensures completedCost == 50.0
    ensures rebookCost == 50.0
    ensures repeatCompleteRefused
  {
    var db, rentalService;
    db, rentalService, firstCost, secondRefused, completedCost := BookRefuseAndComplete();

    WholeHoursBilledExactly(25.0, 11, 13);
    assert !Blocks(db.rentals[0], 1, None);
    assert IsVehicleAvailableForRental(db.vehicles, db.rentals, 1, At(11), At(13), None);
    var rebook := rentalService.CreateRentalAsync(Booking("bruno", 1, 11, 13));
    assert rebook.Success?;
    rebookCost := rebook.value.totalCost;
    assert |db.rentals| == 2 && db.rentals[0].id == 1 && db.rentals[0].status == COMPLETED;

    assert FindRental(db.rentals, 1) == Some(0);
    var again := rentalService.CompleteRentalAsync(1, At(13));
    repeatCompleteRefused := again.Fail?;
  }

  /**
   * While the car is out for 10:00 to 12:00 a booking for 12:00 to 14:00,
   * which only touches the first, is refused: the car's status is RENTED.
   */
  method TouchingBookingWhileRented() returns (touchingRefused: bool, intervalsConflict: bool)
    ensures touchingRefused
    ensures !intervalsConflict
  {
    var db, rentalService, _ := BookOnce();
    intervalsConflict := Conflicts(At(12), At(14), db.rentals[0]);
    RentedVehicleIsNeverAvailable(db.vehicles, db.rentals, 1, At(12), At(14), None);
    var touching := rentalService.CreateRentalAsync(Booking("bruno", 1, 12, 14));
    touchingRefused := touching.Failure?;
  }

  /**
   * A rental completed at 12:00 can still be extended to 13:00: the
   * extension checks no status, keeps COMPLETED and adds one hour's price.
   */
  method ExtendAfterCompletion() returns (extended: bool, status: RentalStatus, cost: real, endTime: DateTime)
    ensures extended
    ensures status == COMPLETED
    ensures cost == 75.0
    ensures endTime == At(13)
  {
    var db, rentalService, _, _, _ := BookRefuseAndComplete();
    WholeHoursBilledExactly(25.0, 12, 13);
    assert !Blocks(db.rentals[0], 1, Some(1));
    assert IsVehicleAvailableForRental(db.vehicles, db.rentals, 1, At(12), At(13), Some(1));
    assert FindRental(db.rentals, 1) == Some(0);
    var outcome := rentalService.ExtendRentalAsync(1, At(13));
    extended := outcome.Pass?;
    status := db.rentals[0].status;
    cost := db.rentals[0].totalCost;
    endTime := db.rentals[0].endTime;
  }

  /**
   * From the "My rentals" page any signed-in customer completes any
   * rental: bruno returns ana's car.
   */
  method PageCompletesAnotherCustomersRental() returns (owner: string, status: RentalStatus, message: string)
    ensures owner == "ana"
    ensures status == COMPLETED
    ensures message == "Veículo devolvido com sucesso!"
  {
    var db, rentalService, _ := BookOnce();
    var page := new MyRentalsModel(rentalService);
    assert page.Valid() && page.db == db;
    assert FindRental(db.rentals, 1) == Some(0) && db.rentals[0].status == ACTIVE;
    var result := page.OnPostCompleteRentalAsync(1, Some("bruno"), At(11));
    owner := db.rentals[0].customerId;
    status := db.rentals[0].status;
    message := page.successMessage;
  }
}
