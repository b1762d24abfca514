/**
 * VehicleService (Services/VehicleService.cs): read-only queries over the
 * Vehicles table, and the operations that add, replace, delete a vehicle or
 * write its Status/Available pair.
 */
module VehicleServices {
  import opened Wrappers
  import opened Exceptions
  import opened Time
  import opened Rentals
  import opened Vehicles
  import opened Data
  import opened Text

  /** Every vehicle of the fleet keeps its Available flag in step with its Status. */
  predicate FleetInLockstep(vehicles: map<int, Vehicle>)
  {
    forall id :: id in vehicles ==> Lockstep(vehicles[id])
  }

  /** GetVehicleByIdAsync: the row stored under the key, or null. */
  function GetVehicleById(vehicles: map<int, Vehicle>, id: int): Option<Vehicle>
  {
    if id in vehicles then Some(vehicles[id]) else None
  }

  /** IsVehicleAvailableAsync: the vehicle exists, is flagged available and has status AVAILABLE. */
  function IsVehicleAvailable(vehicles: map<int, Vehicle>, vehicleId: int): (ok: bool)
    ensures ok <==> vehicleId in vehicles && vehicles[vehicleId].available && vehicles[vehicleId].status == AVAILABLE
    ensures vehicleId in vehicles && Lockstep(vehicles[vehicleId]) ==>
              (ok <==> vehicles[vehicleId].status == AVAILABLE)
  {
    match GetVehicleById(vehicles, vehicleId)
    case None => false
    case Some(v) => v.available && v.status == AVAILABLE
  }

  /** GetAvailableVehiclesAsync: exactly the vehicles IsVehicleAvailable accepts, unchanged. */
  function GetAvailableVehicles(vehicles: map<int, Vehicle>): (r: map<int, Vehicle>)
    ensures forall id :: id in r <==> IsVehicleAvailable(vehicles, id)
    ensures forall id :: id in r ==> id in vehicles && r[id] == vehicles[id]
  {
    map id | id in vehicles && vehicles[id].available && vehicles[id].status == AVAILABLE :: vehicles[id]
  }

  /**
   * GetVehiclesByTypeAsync: the vehicles whose discriminator column equals
   * the given type name under the database's collation.
   */
  function GetVehiclesByType(vehicles: map<int, Vehicle>, vehicleType: string): (r: map<int, Vehicle>)
    ensures forall id :: id in r <==> id in vehicles && CollationEquals(Discriminator(vehicles[id].kind), vehicleType)
    ensures forall id :: id in r ==> r[id] == vehicles[id]
    ensures (!CollationEquals("Car", vehicleType) && !CollationEquals("Motorcycle", vehicleType) &&
             !CollationEquals("Bicycle", vehicleType)) ==> r == map[]
  {
    map id | id in vehicles && CollationEquals(Discriminator(vehicles[id].kind), vehicleType) :: vehicles[id]
  }

  /** The comparison ignores case and trailing blanks: "car " selects the same vehicles as "Car". */
  lemma TypeFilterIgnoresCase(vehicles: map<int, Vehicle>)
    ensures GetVehiclesByType(vehicles, "car ") == GetVehiclesByType(vehicles, "Car")
    ensures forall id :: id in GetVehiclesByType(vehicles, "car") <==> id in vehicles && vehicles[id].kind.Car?
  {
    assert CanonicalText("car ") == CanonicalText("Car") == "car";
    assert CanonicalText("Motorcycle") != "car" && CanonicalText("Bicycle") != "car";
  }

  /**
   * The Vehicles table after UpdateVehicleStatusAsync: the vehicle gets the
   * new status and the matching flag, keeps every other field, and no other
   * row changes; a missing key changes nothing.
   */
  function WithStatus(vehicles: map<int, Vehicle>, vehicleId: int, status: VehicleStatus): (r: map<int, Vehicle>)
    ensures r.Keys == vehicles.Keys
    ensures vehicleId in vehicles ==>
              && r[vehicleId].status == status
              && Lockstep(r[vehicleId])
              && r[vehicleId].(status := vehicles[vehicleId].status, available := vehicles[vehicleId].available)
                 == vehicles[vehicleId]
    ensures forall id :: id in vehicles && id != vehicleId ==> r[id] == vehicles[id]
    ensures vehicleId !in vehicles ==> r == vehicles
    ensures FleetInLockstep(vehicles) ==> FleetInLockstep(r)
  {
    if vehicleId in vehicles then
      vehicles[vehicleId := vehicles[vehicleId].(status := status, available := status == AVAILABLE)]
    else vehicles
  }

  /** The vehicle-side CalculateRentalCostAsync: the variant's own price, or an error for a missing vehicle. */
  function VehicleRentalCost(vehicles: map<int, Vehicle>, vehicleId: int,
                             startTime: DateTime, endTime: DateTime): (r: Result<real, Exception>)
    ensures r.Failure? <==> vehicleId !in vehicles
    ensures r.Failure? ==> r.error == ArgumentException("Vehicle not found")
    ensures r.Success? ==>
              r.value == CategoryFactor(vehicles[vehicleId].kind) * vehicles[vehicleId].hourlyRate
                         * TotalHours(endTime - startTime)
  {
    match GetVehicleById(vehicles, vehicleId)
    case None => Failure(ArgumentException("Vehicle not found"))
    case Some(v) => Success(CalculateRentalCost(v, startTime, endTime))
  }

  class VehicleService {
    const db: ApplicationDbContext

    constructor (db: ApplicationDbContext)
      ensures this.db == db
    {
      this.db := db;
    }

    /**
     * AddVehicleAsync: the database issues the next identity key and the
     * vehicle is stored under it. A vehicle that breaks a column limit of
     * the Vehicles table makes SaveChanges throw and nothing is stored.
     */
    method AddVehicleAsync(vehicle: Vehicle) returns (added: Result<Vehicle, Exception>)
      requires db.Valid()
      modifies db
      ensures db.Valid()
      ensures added.Success? <==> FitsVehicleColumns(vehicle)
      ensures added.Failure? ==> added.error == DbUpdateException(SaveFailedMessage) && unchanged(db)
      ensures added.Success? ==>
                && added.value == vehicle.(id := old(db.nextVehicleId)) && added.value.id !in old(db.vehicles)
                && db.vehicles == old(db.vehicles)[added.value.id := added.value]
                && GetVehicleById(db.vehicles, added.value.id) == Some(added.value)
                && db.nextVehicleId == old(db.nextVehicleId) + 1
      ensures db.rentals == old(db.rentals) && db.nextRentalId == old(db.nextRentalId)
      ensures FleetInLockstep(old(db.vehicles)) && Lockstep(vehicle) ==> FleetInLockstep(db.vehicles)
    {
      if !FitsVehicleColumns(vehicle) {
        return Failure(DbUpdateException(SaveFailedMessage));
      }
      var stored := vehicle.(id := db.nextVehicleId);
      db.vehicles := db.vehicles[stored.id := stored];
      db.nextVehicleId := db.nextVehicleId + 1;
      added := Success(stored);
    }

    /**
     * UpdateVehicleAsync: replaces the stored row. A vehicle whose key is
     * still the unset 0 is tracked as new and inserted under the next
     * identity key; any other key with no row makes SaveChanges fail, and
     * so does a row that breaks a column limit.
     */
    method UpdateVehicleAsync(vehicle: Vehicle) returns (outcome: Outcome<Exception>)
      requires db.Valid()
      modifies db
      ensures db.Valid()
      ensures vehicle.id == 0 && FitsVehicleColumns(vehicle) ==>
                && outcome == Pass
                && db.vehicles == old(db.vehicles)[old(db.nextVehicleId) := vehicle.(id := old(db.nextVehicleId))]
                && db.nextVehicleId == old(db.nextVehicleId) + 1
      ensures vehicle.id != 0 && vehicle.id !in old(db.vehicles) ==>
                && outcome == Fail(DbUpdateConcurrencyException(ConcurrencyFailedMessage))
                && db.vehicles == old(db.vehicles)
      ensures vehicle.id in old(db.vehicles) && FitsVehicleColumns(vehicle) ==>
                outcome == Pass && db.vehicles == old(db.vehicles)[vehicle.id := vehicle]
      ensures (vehicle.id == 0 || vehicle.id in old(db.vehicles)) && !FitsVehicleColumns(vehicle) ==>
                outcome == Fail(DbUpdateException(SaveFailedMessage)) && unchanged(db)
      ensures vehicle.id != 0 ==> db.nextVehicleId == old(db.nextVehicleId)
      ensures db.rentals == old(db.rentals) && db.nextRentalId == old(db.nextRentalId)
      ensures FleetInLockstep(old(db.vehicles)) && Lockstep(vehicle) ==> FleetInLockstep(db.vehicles)
    {
      if vehicle.id == 0 {
        var added := AddVehicleAsync(vehicle);
        outcome := if added.Success? then Pass else Fail(added.error);
      } else if vehicle.id !in db.vehicles {
        outcome := Fail(DbUpdateConcurrencyException(ConcurrencyFailedMessage));
      } else if !FitsVehicleColumns(vehicle) {
        outcome := Fail(DbUpdateException(SaveFailedMessage));
      } else {
        db.vehicles := db.vehicles[vehicle.id := vehicle];
        outcome := Pass;
      }
    }

    /**
     * DeleteVehicleAsync: removes the row if there is one. The restricting
     * foreign key from Rentals makes SaveChanges fail while a rental
     * references the vehicle.
     */
    method DeleteVehicleAsync(id: int) returns (outcome: Outcome<Exception>)
      requires db.Valid()
      modifies db
      ensures db.Valid()
      ensures id !in old(db.vehicles) ==> outcome == Pass && db.vehicles == old(db.vehicles)
      ensures id in old(db.vehicles) && IsReferenced(old(db.rentals), id) ==>
                && outcome == Fail(DbUpdateException(SaveFailedMessage))
                && db.vehicles == old(db.vehicles)
      ensures id in old(db.vehicles) && !IsReferenced(old(db.rentals), id) ==>
                outcome == Pass && db.vehicles == old(db.vehicles) - {id}
      ensures forall k :: k in old(db.vehicles) && k != id ==> k in db.vehicles && db.vehicles[k] == old(db.vehicles)[k]
      ensures db.rentals == old(db.rentals)
      ensures db.nextVehicleId == old(db.nextVehicleId) && db.nextRentalId == old(db.nextRentalId)
    {
      outcome := Pass;
      if id in db.vehicles {
        if IsReferenced(db.rentals, id) {
          outcome := Fail(DbUpdateException(SaveFailedMessage));
        } else {
          db.vehicles := db.vehicles - {id};
        }
      }
    }

    /** UpdateVehicleStatusAsync: writes the Status/Available pair in step; a missing vehicle is ignored. */
    method UpdateVehicleStatusAsync(vehicleId: int, status: VehicleStatus)
      requires db.Valid()
      modifies db
      ensures db.Valid()
      ensures db.vehicles == WithStatus(old(db.vehicles), vehicleId, status)
      ensures db.rentals == old(db.rentals)
      ensures db.nextVehicleId == old(db.nextVehicleId) && db.nextRentalId == old(db.nextRentalId)
    {
      if vehicleId in db.vehicles {
        var vehicle := db.vehicles[vehicleId];
        db.vehicles := db.vehicles[vehicleId := vehicle.(status := status, available := status == AVAILABLE)];
      }
    }
  }
}
