/**
 * The vehicle registration form (Pages/Vehicles/Create.cshtml.cs): the
 * form's validation annotations, the form-to-variant constructor, the
 * display names, and the post handler that stores the new vehicle.
 */
module VehicleCreatePage {
  import opened Wrappers
  import opened Exceptions
  import opened Time
  import opened Text
  import opened Vehicles
  import opened Data
  import opened VehicleServices

  /** The bound properties of the page. */
  datatype VehicleForm = VehicleForm(
    vehicleType: string,
    model: string,
    description: string,
    year: int,
    hourlyRate: real,
    licensePlate: string,
    lastMaintenance: DateTime,
    status: VehicleStatus,
    imagemUri: string,
    currentLocation: Option<string>,
    mileage: Option<int>,
    color: Option<string>,
    fuelType: Option<string>,
    seats: int,
    transmission: Option<string>,
    hasAC: bool,
    engineCapacity: int,
    hasHelmet: bool,
    bikeType: Option<string>,
    hasLock: bool)

  /** [Required] on a string: not null, not empty, not only white space. */
  predicate Present(s: string)
  {
    !IsBlank(s)
  }

  /** [Url]: the text starts with http://, https:// or ftp://, ignoring case. */
  predicate IsUrl(s: string)
  {
    StartsWithIgnoringCase(s, "http://") || StartsWithIgnoringCase(s, "https://") || StartsWithIgnoringCase(s, "ftp://")
  }

  predicate StartsWithIgnoringCase(s: string, prefix: string)
  {
    |prefix| <= |s| && forall i :: 0 <= i < |prefix| ==> ToLowerChar(s[i]) == prefix[i]
  }

  /** ModelState.IsValid: every annotation of the page's bound properties holds. */
  predicate AnnotationsHold(form: VehicleForm)
  {
    && Present(form.vehicleType)
    && Present(form.model) && 2 <= |form.model| <= 100
    && Present(form.description) && 20 <= |form.description| <= 500
    && 1900 <= form.year <= 2100
    && 0.1 <= form.hourlyRate <= 1000.0
    && Present(form.licensePlate) && |form.licensePlate| <= 15
    && Present(form.imagemUri) && IsUrl(form.imagemUri)
    && (form.mileage.None? || 0 <= form.mileage.value <= 1000000)
    && (form.color.None? || |form.color.value| <= 30)
    && 1 <= form.seats <= 8
    && 50 <= form.engineCapacity <= 2000
  }

  const NotInformed: string := "Não informado"
  const CommonBicycle: string := "Bicicleta comum"

  /**
   * CreateVehicleByType: the variant named by the form's type, with the
   * shared fields copied and Available derived from Status; any other type
   * string gives null.
   */
  function CreateVehicleByType(form: VehicleForm): (v: Option<Vehicle>)
    ensures v.Some? <==> form.vehicleType in {"Car", "Motorcycle", "Bicycle"}
    ensures v.Some? ==> Discriminator(v.value.kind) == form.vehicleType
    ensures v.Some? ==> Lockstep(v.value)
    ensures v.Some? ==>
              && v.value.id == 0
              && v.value.model == Some(form.model)
              && v.value.description == form.description
              && v.value.year == form.year
              && v.value.hourlyRate == form.hourlyRate
              && v.value.licensePlate == form.licensePlate
              && v.value.lastMaintenance == form.lastMaintenance
              && v.value.status == form.status
              && v.value.imagemUri == form.imagemUri
    ensures v.Some? && v.value.kind.Car? ==>
              && v.value.kind.fuelType == Some(if form.fuelType.Some? then form.fuelType.value else NotInformed)
              && v.value.kind.transmission == Some(if form.transmission.Some? then form.transmission.value else NotInformed)
              && v.value.kind.seats == form.seats && v.value.kind.hasAC == form.hasAC
    ensures v.Some? && v.value.kind.Motorcycle? ==>
              v.value.kind.engineCapacity == form.engineCapacity && v.value.kind.hasHelmet == form.hasHelmet
    ensures v.Some? && v.value.kind.Bicycle? ==>
              && v.value.kind.bikeType == Some(if form.bikeType.Some? then form.bikeType.value else CommonBicycle)
              && v.value.kind.hasHelmet == form.hasHelmet && v.value.kind.hasLock == form.hasLock
  {
    var available := form.status == AVAILABLE;
    var kind :=
      if form.vehicleType == "Car" then
        Some(Car(Some(if form.fuelType.Some? then form.fuelType.value else NotInformed), form.seats,
                 Some(if form.transmission.Some? then form.transmission.value else NotInformed), form.hasAC))
      else if form.vehicleType == "Motorcycle" then
        Some(Motorcycle(form.engineCapacity, form.hasHelmet))
      else if form.vehicleType == "Bicycle" then
        Some(Bicycle(Some(if form.bikeType.Some? then form.bikeType.value else CommonBicycle), form.hasHelmet, form.hasLock))
      else None;
    match kind
    case None => None
    case Some(k) =>
      Some(Vehicle(0, Some(form.model), form.year, available, form.hourlyRate, form.licensePlate,
                   form.description, form.imagemUri, form.lastMaintenance, form.status, k))
  }

  /**
   * The page and the entity disagree: a Model of 2 to 4 characters, or a
   * Description of 51 to 500, passes the page's annotations but not those
   * declared on Vehicle, and the vehicle built from it breaks them. Such a
   * Description is also too long for its nvarchar(50) column.
   */
  lemma PageAdmitsVehicleTheEntityRejects(form: VehicleForm)
    requires AnnotationsHold(form) && form.vehicleType == "Car"
    requires |form.model| < 5 || |form.description| > 50
    ensures CreateVehicleByType(form).Some?
    ensures !ModelAnnotationsHold(CreateVehicleByType(form).value.model) ||
            !DescriptionAnnotationsHold(CreateVehicleByType(form).value.description)
    ensures |form.description| > 50 ==> !FitsVehicleColumns(CreateVehicleByType(form).value)
  {
  }

  /** GetVehicleTypeName: the Portuguese name of the type, "Veículo" for anything else. */
  function GetVehicleTypeName(vehicleType: string): (name: string)
    ensures vehicleType == "Car" ==> name == "Carro"
    ensures vehicleType == "Motorcycle" ==> name == "Moto"
    ensures vehicleType == "Bicycle" ==> name == "Bicicleta"
    ensures vehicleType !in {"Car", "Motorcycle", "Bicycle"} ==> name == "Veículo"
  {
    match vehicleType
    case "Car" => "Carro"
    case "Motorcycle" => "Moto"
    case "Bicycle" => "Bicicleta"
    case _ => "Veículo"
  }

  /** Every vehicle the page can build gets its own name, never the fallback. */
  lemma BuiltVehiclesHaveDistinctTypeNames(form1: VehicleForm, form2: VehicleForm)
    requires CreateVehicleByType(form1).Some? && CreateVehicleByType(form2).Some?
    ensures GetVehicleTypeName(form1.vehicleType) != "Veículo"
    ensures GetVehicleTypeName(form1.vehicleType) == GetVehicleTypeName(form2.vehicleType) <==>
            CreateVehicleByType(form1).value.kind.Car? == CreateVehicleByType(form2).value.kind.Car? &&
            CreateVehicleByType(form1).value.kind.Motorcycle? == CreateVehicleByType(form2).value.kind.Motorcycle?
  {
  }

  /** GetStatusDisplayName: the Portuguese label of each vehicle status. */
  function GetStatusDisplayName(status: VehicleStatus): (display: string)
    ensures display != []
  {
    match status
    case AVAILABLE => "Disponível"
    case RENTED => "Alugado"
    case MAINTENANCE => "Em Manutenção"
    case DAMAGED => "Danificado"
    case RETIRED => "Aposentado"
  }

  /** No two statuses share a label, so the status drop-down is unambiguous. */
  lemma StatusDisplayNamesDistinct(s: VehicleStatus, t: VehicleStatus)
    requires GetStatusDisplayName(s) == GetStatusDisplayName(t)
    ensures s == t
  {
  }

  datatype PostResult = Page | RedirectToPage(pageName: string)

  class CreateModel {
    const vehicleService: VehicleService
    const db: ApplicationDbContext
    /** ModelState errors added by the handler itself, as (key, message) pairs. */
    var modelErrors: seq<(string, string)>
    var tempData: map<string, string>

    constructor (vehicleService: VehicleService)
      ensures this.vehicleService == vehicleService && this.db == vehicleService.db
      ensures modelErrors == [] && tempData == map[]
    {
      this.vehicleService := vehicleService;
      this.db := vehicleService.db;
      modelErrors := [];
      tempData := map[];
    }

    /**
     * OnPostAsync: an invalid form or an unknown type redisplays the page
     * and stores nothing; a vehicle the database refuses is caught, its
     * message added to the page's errors and the page redisplayed; otherwise
     * the built vehicle is added under a fresh key and the browser is sent
     * to the index with a success message.
     */
    method OnPostAsync(form: VehicleForm) returns (result: PostResult)
      requires vehicleService.db == db && db.Valid()
      modifies this, db
      ensures db.Valid()
      ensures !AnnotationsHold(form) ==> result == Page && unchanged(db) && unchanged(this)
      ensures AnnotationsHold(form) && CreateVehicleByType(form).None? ==>
                && result == Page && unchanged(db)
                && modelErrors == old(modelErrors) + [("VehicleType", "Tipo de veículo inválido")]
                && tempData == old(tempData)
      ensures AnnotationsHold(form) && CreateVehicleByType(form).Some? && !FitsVehicleColumns(CreateVehicleByType(form).value) ==>
                && result == Page && unchanged(db)
                && modelErrors == old(modelErrors) + [("", "Erro ao cadastrar veículo: " + SaveFailedMessage)]
                && tempData == old(tempData)
      ensures result.RedirectToPage? <==>
                AnnotationsHold(form) && CreateVehicleByType(form).Some? && FitsVehicleColumns(CreateVehicleByType(form).value)
      ensures result.RedirectToPage? ==>
                var added := CreateVehicleByType(form).value.(id := old(db.nextVehicleId));
                && result.pageName == "/Index"
                && db.vehicles == old(db.vehicles)[added.id := added]
                && GetVehicleById(db.vehicles, added.id) == Some(added)
                && Lockstep(added)
                && db.rentals == old(db.rentals)
                && modelErrors == old(modelErrors)
                && tempData == old(tempData)[
                     "SuccessMessage" := GetVehicleTypeName(form.vehicleType) + " '" + form.model + "' cadastrado com sucesso!"][
                     "VehicleModel" := form.model][
                     "VehicleType" := GetVehicleTypeName(form.vehicleType)]
      ensures FleetInLockstep(old(db.vehicles)) ==> FleetInLockstep(db.vehicles)
    {
      if !AnnotationsHold(form) {
        return Page;
      }
      var newVehicle := CreateVehicleByType(form);
      if newVehicle.None? {
        modelErrors := modelErrors + [("VehicleType", "Tipo de veículo inválido")];
        return Page;
      }
      var added := vehicleService.AddVehicleAsync(newVehicle.value);
      if added.Failure? {
        // The catch around the whole body: the exception's message becomes a model-level error.
        modelErrors := modelErrors + [("", "Erro ao cadastrar veículo: " + added.error.message)];
        return Page;
      }
      var vehicleTypeName := GetVehicleTypeName(form.vehicleType);
      tempData := tempData["SuccessMessage" := vehicleTypeName + " '" + form.model + "' cadastrado com sucesso!"];
      tempData := tempData["VehicleModel" := form.model];
      tempData := tempData["VehicleType" := vehicleTypeName];
      result := RedirectToPage("/Index");
    }
  }
}
