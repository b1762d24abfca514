/**
 * The Vehicle entity (Models/Vehicle.cs) and its three variants Car, Motorcycle
 * and Bicycle (Models/Car.cs, Models/Motorcycle.cs, Models/Bicycle.cs), with
 * the per-category pricing each variant overrides.
 */
module Vehicles {
  import opened Wrappers
  import opened Time
  import opened Text

  datatype VehicleStatus = AVAILABLE | RENTED | MAINTENANCE | DAMAGED | RETIRED

  /** The variant of the abstract Vehicle class, with the fields only that variant declares. */
  datatype VehicleKind =
    | Car(fuelType: Option<string>, seats: int, transmission: Option<string>, hasAC: bool)
    | Motorcycle(engineCapacity: int, hasHelmet: bool)
    | Bicycle(bikeType: Option<string>, hasHelmet: bool, hasLock: bool)

  datatype Vehicle = Vehicle(
    id: int,
    model: Option<string>,
    year: int,
    available: bool,
    hourlyRate: real,
    licensePlate: string,
    description: string,
    imagemUri: string,
    lastMaintenance: DateTime,
    status: VehicleStatus,
    kind: VehicleKind)

  /** The table-per-hierarchy discriminator stored in the VehicleType column. */
  function Discriminator(kind: VehicleKind): (name: string)
    ensures name in {"Car", "Motorcycle", "Bicycle"}
  {
    match kind
    case Car(_, _, _, _) => "Car"
    case Motorcycle(_, _) => "Motorcycle"
    case Bicycle(_, _, _) => "Bicycle"
  }

  /** The flag and the status agree: the vehicle is flagged available exactly when its status is AVAILABLE. */
  predicate Lockstep(v: Vehicle)
  {
    v.available == (v.status == AVAILABLE)
  }

  /**
   * A vehicle as `new Car { ... }` builds it when the initializer leaves
   * Available and Status alone: the property defaults apply.
   */
  function WithDefaults(kind: VehicleKind, model: Option<string>, year: int, hourlyRate: real,
                        licensePlate: string, description: string, imagemUri: string,
                        lastMaintenance: DateTime): (v: Vehicle)
    ensures Lockstep(v) && v.available && v.status == AVAILABLE
    ensures v.kind == kind && v.model == model && v.hourlyRate == hourlyRate
  {
    Vehicle(0, model, year, true, hourlyRate, licensePlate, description, imagemUri,
            lastMaintenance, AVAILABLE, kind)
  }

  // ---------------------------------------------------------------------
  // Data annotations

  /** [Required] and [StringLength(20, MinimumLength = 5)] on Model. */
  predicate ModelAnnotationsHold(model: Option<string>)
  {
    model.Some? && !IsBlank(model.value) && 5 <= |model.value| <= 20
  }

  /** [Required] and [StringLength(50, MinimumLength = 10)] on Description. */
  predicate DescriptionAnnotationsHold(description: string)
  {
    !IsBlank(description) && 10 <= |description| <= 50
  }

  // ---------------------------------------------------------------------
  // NomeSlug

  function SlugChar(c: char): char
  {
    if c == ' ' then '-' else ToLowerChar(c)
  }

  /** Model.ToLower().Replace(" ", "-"), one character at a time. */
  function Slug(s: string): (r: string)
    ensures |r| == |s|
    ensures forall i :: 0 <= i < |s| ==> r[i] == SlugChar(s[i])
    ensures forall i :: 0 <= i < |r| ==> r[i] != ' ' && !IsUpper(r[i])
  {
    if s == [] then [] else [SlugChar(s[0])] + Slug(s[1..])
  }

  /** NomeSlug: null for a null Model, otherwise the slug of the Model. */
  function NomeSlug(model: Option<string>): (slug: Option<string>)
    ensures slug.None? <==> model.None?
    ensures slug.Some? ==> |slug.value| == |model.value| && ' ' !in slug.value
  {
    if model.None? then None else Some(Slug(model.value))
  }

  /** A slug is its own slug. */
  lemma {:induction false} SlugIdempotent(s: string)
    ensures Slug(Slug(s)) == Slug(s)
  {
    if s != [] {
      SlugIdempotent(s[1..]);
      assert Slug(s)[1..] == Slug(s[1..]);
    }
  }

  /** The slug of a Model that satisfies its annotations satisfies them too. */
  lemma SlugKeepsModelAnnotations(model: Option<string>)
    requires ModelAnnotationsHold(model)
    ensures ModelAnnotationsHold(NomeSlug(model))
  {
    var m := model.value;
    var k :| 0 <= k < |m| && !IsWhiteSpace(m[k]);
    assert !IsWhiteSpace(Slug(m)[k]);
  }

  // ---------------------------------------------------------------------
  // Per-category pricing: fractional hours, no rounding

  const MotorcycleFactor: real := 1.1
  const CarFactor: real := 1.2

  /** Bicycle.CalculateRentalCost: HourlyRate times the fractional hours. */
  function BicycleRentalCost(hourlyRate: real, startTime: DateTime, endTime: DateTime): (cost: real)
    ensures startTime == endTime ==> cost == 0.0
    ensures hourlyRate >= 0.0 && startTime <= endTime ==> cost >= 0.0
    ensures hourlyRate > 0.0 && endTime < startTime ==> cost < 0.0
  {
    hourlyRate * TotalHours(endTime - startTime)
  }

  /** Motorcycle.CalculateRentalCost: the Bicycle price times 1.1. */
  function MotorcycleRentalCost(hourlyRate: real, startTime: DateTime, endTime: DateTime): (cost: real)
    ensures cost == MotorcycleFactor * BicycleRentalCost(hourlyRate, startTime, endTime)
    ensures startTime == endTime ==> cost == 0.0
    ensures hourlyRate >= 0.0 && startTime <= endTime ==> cost >= 0.0
    ensures hourlyRate > 0.0 && endTime < startTime ==> cost < 0.0
  {
    hourlyRate * TotalHours(endTime - startTime) * 1.1
  }

  /** Car.CalculateRentalCost: the Bicycle price times 1.2. */
  function CarRentalCost(hourlyRate: real, startTime: DateTime, endTime: DateTime): (cost: real)
    ensures cost == CarFactor * BicycleRentalCost(hourlyRate, startTime, endTime)
    ensures startTime == endTime ==> cost == 0.0
    ensures hourlyRate >= 0.0 && startTime <= endTime ==> cost >= 0.0
    ensures hourlyRate > 0.0 && endTime < startTime ==> cost < 0.0
  {
    hourlyRate * TotalHours(endTime - startTime) * 1.2
  }

  /** The multiplier each variant applies on top of the Bicycle price. */
  function CategoryFactor(kind: VehicleKind): real
  {
    match kind
    case Car(_, _, _, _) => CarFactor
    case Motorcycle(_, _) => MotorcycleFactor
    case Bicycle(_, _, _) => 1.0
  }

  /** Vehicle.CalculateRentalCost, dispatched on the variant. */
  function CalculateRentalCost(v: Vehicle, startTime: DateTime, endTime: DateTime): (cost: real)
    ensures cost == CategoryFactor(v.kind) * v.hourlyRate * TotalHours(endTime - startTime)
  {
    match v.kind
    case Car(_, _, _, _) => CarRentalCost(v.hourlyRate, startTime, endTime)
    case Motorcycle(_, _) => MotorcycleRentalCost(v.hourlyRate, startTime, endTime)
    case Bicycle(_, _, _) => BicycleRentalCost(v.hourlyRate, startTime, endTime)
  }

  /** With a non-negative rate, a later end never costs less. */
  lemma RentalCostMonotone(v: Vehicle, startTime: DateTime, end1: DateTime, end2: DateTime)
    requires v.hourlyRate >= 0.0 && end1 <= end2
    ensures CalculateRentalCost(v, startTime, end1) <= CalculateRentalCost(v, startTime, end2)
  {
    var f := CategoryFactor(v.kind) * v.hourlyRate;
    assert f >= 0.0;
    assert TotalHours(end1 - startTime) <= TotalHours(end2 - startTime);
    MultiplyMonotone(f, TotalHours(end1 - startTime), TotalHours(end2 - startTime));
  }

  /** Prices are additive: splitting an interval at any instant splits the price. */
  lemma RentalCostAdditive(v: Vehicle, startTime: DateTime, middle: DateTime, endTime: DateTime)
    ensures CalculateRentalCost(v, startTime, endTime)
         == CalculateRentalCost(v, startTime, middle) + CalculateRentalCost(v, middle, endTime)
  {
    var f := CategoryFactor(v.kind) * v.hourlyRate;
    var H := TicksPerHour as real;
    assert TotalHours(endTime - startTime) == TotalHours(middle - startTime) + TotalHours(endTime - middle);
    Distribute(f, TotalHours(middle - startTime), TotalHours(endTime - middle));
  }

  /** The price is linear in the duration: twice as long costs twice as much. */
  lemma {:induction false} RentalCostDoubles(v: Vehicle, startTime: DateTime, duration: int)
    ensures CalculateRentalCost(v, startTime, startTime + 2 * duration)
         == 2.0 * CalculateRentalCost(v, startTime, startTime + duration)
  {
    RentalCostAdditive(v, startTime, startTime + duration, startTime + 2 * duration);
    RentalCostShiftInvariant(v, startTime, startTime + duration, duration);
  }

  /** Only the length of the interval matters. */
  lemma RentalCostShiftInvariant(v: Vehicle, startTime: DateTime, endTime: DateTime, shift: int)
    ensures CalculateRentalCost(v, startTime + shift, endTime + shift) == CalculateRentalCost(v, startTime, endTime)
  {
    assert (endTime + shift) - (startTime + shift) == endTime - startTime;
  }

  lemma MultiplyMonotone(f: real, x: real, y: real)
    requires f >= 0.0 && x <= y
    ensures f * x <= f * y
  {
    assert f * y - f * x == f * (y - x);
  }

  lemma Distribute(f: real, x: real, y: real)
    ensures f * (x + y) == f * x + f * y
  {
  }
}
