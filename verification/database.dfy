/**
 * The two tables of the application's database context that the core uses,
 * with the behaviour Entity Framework gives them: identity keys assigned on
 * insert and a restricting foreign key from each rental to its vehicle.
 */
module Data {
  import opened Rentals
  import opened Vehicles

  /**
   * The column limits of the Vehicles table: Model is nvarchar(100) NOT NULL
   * (the mapping's HasMaxLength(100) over the entity's [Required]),
   * LicensePlate nvarchar(15) and Description nvarchar(50) (from the
   * entity's [StringLength(50)], which the mapping does not override).
   * SQL Server refuses a row that breaks one of them.
   */
  predicate FitsVehicleColumns(v: Vehicle)
  {
    && v.model.Some? && |v.model.value| <= 100
    && |v.licensePlate| <= 15
    && |v.description| <= 50
  }

  /** No two rental rows share a key. */
  predicate UniqueRentalIds(rentals: seq<Rental>)
  {
    forall i, j :: 0 <= i < j < |rentals| ==> rentals[i].id != rentals[j].id
  }

  /**
   * What the database guarantees: every key was issued by its identity
   * column (positive and below the next value), each vehicle row is stored
   * under its own key and fits the table's columns, and every rental row
   * references an existing vehicle.
   */
  predicate WellFormed(vehicles: map<int, Vehicle>, rentals: seq<Rental>,
                       nextVehicleId: int, nextRentalId: int)
  {
    && 0 < nextVehicleId && 0 < nextRentalId
    && (forall id :: id in vehicles ==> 0 < id < nextVehicleId && vehicles[id].id == id)
    && (forall id :: id in vehicles ==> FitsVehicleColumns(vehicles[id]))
    && (forall i :: 0 <= i < |rentals| ==> 0 < rentals[i].id < nextRentalId && rentals[i].vehicleId in vehicles)
    && UniqueRentalIds(rentals)
  }

  /** True when some rental row references the vehicle (the foreign key then forbids deleting it). */
  predicate IsReferenced(rentals: seq<Rental>, vehicleId: int)
  {
    exists i :: 0 <= i < |rentals| && rentals[i].vehicleId == vehicleId
  }

  /**
   * The database context. The Rentals table is kept as a sequence of rows;
   * a query sorted by start returns rows with equal starts in this order,
   * which is one of the orders the database may choose. The Vehicles table
   * is looked up by key.
   */
  class ApplicationDbContext {
    var vehicles: map<int, Vehicle>
    var rentals: seq<Rental>
    var nextVehicleId: int
    var nextRentalId: int

    ghost predicate Valid()
      reads this
    {
      WellFormed(vehicles, rentals, nextVehicleId, nextRentalId)
    }

    constructor ()
      ensures Valid() && vehicles == map[] && rentals == []
      ensures nextVehicleId == 1 && nextRentalId == 1
    {
      vehicles := map[];
      rentals := [];
      nextVehicleId := 1;
      nextRentalId := 1;
    }
  }
}
