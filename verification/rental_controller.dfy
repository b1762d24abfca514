/**
 * RentalController (Controller/RentalController.cs): the JSON API over the
 * rental service. Each action is a chain of guards with early returns that
 * maps the request and the service's outcome to an HTTP result; the
 * controller keeps no state of its own.
 */
module RentalControllers {
  import opened Wrappers
  import opened Exceptions
  import opened Time
  import opened Linq
  import opened Rentals
  import opened Vehicles
  import opened Data
  import opened VehicleServices
  import opened RentalServices

  /** The ActionResult shapes the controller returns. */
  datatype ActionResult<+T> =
    | Ok(value: T)
    | BadRequest(message: string)
    | Unauthorized(message: string)
    | NotFound(message: string)
      /** Forbid(string) takes its argument as an authentication scheme, not as a message. */
    | Forbid(authenticationScheme: string)
    | StatusCode(code: int, message: string)

  datatype CreateRentalRequest = CreateRentalRequest(vehicleId: int, startDate: DateTime, endDate: DateTime)

  datatype CalculateCostRequest = CalculateCostRequest(vehicleId: int, startDate: DateTime, endDate: DateTime)

  datatype RentalResponse = RentalResponse(
    id: int,
    vehicleModel: Option<string>,
    startDate: DateTime,
    endDate: DateTime,
    totalCost: real,
    status: string,
    message: string)

  datatype RentalSummary = RentalSummary(
    id: int,
    vehicleModel: string,
    startDate: DateTime,
    endDate: DateTime,
    totalCost: real,
    status: string)

  /** The anonymous `new { Message = ... }` body of the complete and cancel actions. */
  datatype MessageBody = MessageBody(message: string)

  /** How far in the past a requested start may lie: DateTime.UtcNow.AddMinutes(-5). */
  const GraceWindow: int := 5 * TicksPerMinute

  const IntervalOrderMessage: string := "A data de início deve ser anterior à data de fim."
  const PastStartMessage: string := "A data de início não pode ser no passado."

  /**
   * The two date guards of CreateRental, in order: the interval must be
   * proper, then the start may lie at most five minutes in the past.
   */
  function CreateRentalDateGuard(request: CreateRentalRequest, utcNow: DateTime): (rejection: Option<string>)
    ensures rejection.None? <==> request.startDate < request.endDate && request.startDate >= utcNow - GraceWindow
    ensures request.startDate >= request.endDate ==> rejection == Some(IntervalOrderMessage)
    ensures request.startDate < request.endDate && request.startDate < utcNow - GraceWindow ==>
              rejection == Some(PastStartMessage)
  {
    if request.startDate >= request.endDate then Some(IntervalOrderMessage)
    else if request.startDate < utcNow - GraceWindow then Some(PastStartMessage)
    else None
  }

  /** A start exactly five minutes ago passes; one tick earlier does not. */
  lemma GraceWindowBoundary(vehicleId: int, utcNow: DateTime, endDate: DateTime)
    requires utcNow - GraceWindow < endDate
    ensures CreateRentalDateGuard(CreateRentalRequest(vehicleId, utcNow - GraceWindow, endDate), utcNow).None?
    ensures CreateRentalDateGuard(CreateRentalRequest(vehicleId, utcNow - GraceWindow - 1, endDate), utcNow)
            == Some(PastStartMessage)
  {
  }

  /**
   * CreateRental's catch clauses: an InvalidOperationException becomes a 400
   * carrying its message, anything else a 500.
   */
  function CreateRentalFailure<T>(e: Exception): (result: ActionResult<T>)
    ensures result.BadRequest? <==> e.InvalidOperationException?
    ensures result.BadRequest? ==> result.message == e.message
    ensures !result.BadRequest? ==> result == StatusCode(500, "Erro interno do servidor: " + e.message)
  {
    match e
    case InvalidOperationException(message) => BadRequest(message)
    case _ => StatusCode(500, "Erro interno do servidor: " + e.message)
  }

  /** The projection of GetMyRentals: the vehicle's Model, or "N/A" when it has none. */
  function Summarize(vehicles: map<int, Vehicle>, r: Rental): (s: RentalSummary)
    ensures s.id == r.id && s.startDate == r.startTime && s.endDate == r.endTime && s.totalCost == r.totalCost
    ensures s.status == StatusName(r.status)
  {
    var model := if r.vehicleId in vehicles && vehicles[r.vehicleId].model.Some?
                 then vehicles[r.vehicleId].model.value else "N/A";
    RentalSummary(r.id, model, r.startTime, r.endTime, r.totalCost, StatusName(r.status))
  }

  function SummaryStart(s: RentalSummary): int
  {
    s.startDate
  }

  class RentalController {
    const rentalService: RentalService
    const vehicleService: VehicleService
    const db: ApplicationDbContext
    /** The identifiers UserManager knows. */
    const users: set<string>

    ghost predicate Valid()
      reads db
    {
      rentalService.db == db && rentalService.vehicleService == vehicleService && vehicleService.db == db && db.Valid()
    }

    constructor (rentalService: RentalService, vehicleService: VehicleService, users: set<string>)
      requires rentalService.vehicleService == vehicleService && vehicleService.db == rentalService.db
      ensures this.rentalService == rentalService && this.vehicleService == vehicleService
      ensures this.db == rentalService.db && this.users == users
    {
      this.rentalService := rentalService;
      this.vehicleService := vehicleService;
      this.db := rentalService.db;
      this.users := users;
    }

    /**
     * POST api/rental/create. The guards run in order: dates, caller, vehicle,
     * availability; a rejected request changes nothing. An admitted one books
     * the period for the caller at the service's price.
     */
    method CreateRental(request: CreateRentalRequest, userId: Option<string>, utcNow: DateTime)
      returns (result: ActionResult<RentalResponse>)
      requires Valid()
      modifies db
      ensures Valid()
      ensures !result.Ok? ==> unchanged(db)
      ensures CreateRentalDateGuard(request, utcNow).Some? ==>
                result == BadRequest(CreateRentalDateGuard(request, utcNow).value)
      ensures CreateRentalDateGuard(request, utcNow).None? && (userId.None? || userId.value !in users) ==>
                result == Unauthorized("Usuário não encontrado.")
      ensures CreateRentalDateGuard(request, utcNow).None? && userId.Some? && userId.value in users &&
              request.vehicleId !in old(db.vehicles) ==>
                result == NotFound("Veículo não encontrado.")
      ensures CreateRentalDateGuard(request, utcNow).None? && userId.Some? && userId.value in users &&
              request.vehicleId in old(db.vehicles) &&
              !IsVehicleAvailableForRental(old(db.vehicles), old(db.rentals), request.vehicleId,
                                           request.startDate, request.endDate, None) ==>
                result == BadRequest("O veículo não está disponível para o período solicitado.")
      ensures result.Ok? <==>
                && CreateRentalDateGuard(request, utcNow).None?
                && userId.Some? && userId.value in users
                && IsVehicleAvailableForRental(old(db.vehicles), old(db.rentals), request.vehicleId,
                                               request.startDate, request.endDate, None)
      ensures result.Ok? ==>
                var vehicle := old(db.vehicles)[request.vehicleId];
                var cost := ServiceRentalCost(vehicle.hourlyRate, request.startDate, request.endDate);
                && db.rentals == old(db.rentals) + [Rental(old(db.nextRentalId), userId.value, request.vehicleId,
                                                           request.startDate, request.endDate, cost, ACTIVE, None)]
                && db.vehicles == WithStatus(old(db.vehicles), request.vehicleId, RENTED)
                && result.value == RentalResponse(old(db.nextRentalId), vehicle.model, request.startDate,
                                                  request.endDate, cost, "ACTIVE", "Aluguel criado com sucesso!")
      ensures NoDoubleBooking(old(db.rentals)) ==> NoDoubleBooking(db.rentals)
      ensures StatusesOnlyAdvance(old(db.rentals), db.rentals)
    {
      var dateRejection := CreateRentalDateGuard(request, utcNow);
      if dateRejection.Some? {
        return BadRequest(dateRejection.value);
      }
      // FindByIdAsync finds no user for a missing claim: the store turns a
      // null id into a null key, and a lookup by a null key yields null.
      if userId.None? || userId.value !in users {
        return Unauthorized("Usuário não encontrado.");
      }
      var vehicle := GetVehicleById(db.vehicles, request.vehicleId);
      if vehicle.None? {
        return NotFound("Veículo não encontrado.");
      }
      if !IsVehicleAvailableForRental(db.vehicles, db.rentals, request.vehicleId, request.startDate, request.endDate, None) {
        return BadRequest("O veículo não está disponível para o período solicitado.");
      }
      var totalCost := RentalCostFor(db.vehicles, request.vehicleId, request.startDate, request.endDate);
      var rental := Rental(0, userId.value, request.vehicleId, request.startDate, request.endDate,
                           totalCost.value, ACTIVE, None);
      var created := rentalService.CreateRentalAsync(rental);
      // The service repeats the availability test on the state just tested,
      // so its own InvalidOperationException cannot arise here.
      result := Ok(RentalResponse(created.value.id, vehicle.value.model, created.value.startTime,
                                  created.value.endTime, created.value.totalCost, StatusName(created.value.status),
                                  "Aluguel criado com sucesso!"));
    }

    /** POST api/rental/calculate-cost: the service's price for a proper interval. */
    method CalculateCost(request: CalculateCostRequest) returns (result: ActionResult<real>)
      ensures request.startDate >= request.endDate ==> result == BadRequest(IntervalOrderMessage)
      ensures request.startDate < request.endDate && request.vehicleId !in db.vehicles ==>
                result == BadRequest("Erro ao calcular custo: " + "Vehicle not found")
      ensures result.Ok? <==> request.startDate < request.endDate && request.vehicleId in db.vehicles
      ensures result.Ok? ==>
                result.value == ServiceRentalCost(db.vehicles[request.vehicleId].hourlyRate,
                                                  request.startDate, request.endDate)
      ensures result.Ok? && db.vehicles[request.vehicleId].hourlyRate > 0.0 ==>
                result.value >= db.vehicles[request.vehicleId].hourlyRate
    {
      if request.startDate >= request.endDate {
        return BadRequest(IntervalOrderMessage);
      }
      var cost := RentalCostFor(db.vehicles, request.vehicleId, request.startDate, request.endDate);
      match cost
      case Failure(e) => result := BadRequest("Erro ao calcular custo: " + e.message);
      case Success(c) => result := Ok(c);
    }

    /** GET api/rental/check-availability: the availability test for a new booking. */
    method CheckAvailability(vehicleId: int, startDate: DateTime, endDate: DateTime) returns (result: ActionResult<bool>)
      ensures result.Ok?
      ensures result.value ==> IsVehicleAvailable(db.vehicles, vehicleId)
      ensures result.value ==>
                forall i :: 0 <= i < |db.rentals| && Blocks(db.rentals[i], vehicleId, None) ==>
                  !Overlap(startDate, endDate, db.rentals[i].startTime, db.rentals[i].endTime)
      ensures result.value == IsVehicleAvailableForRental(db.vehicles, db.rentals, vehicleId, startDate, endDate, None)
    {
      var isAvailable := IsVehicleAvailableForRental(db.vehicles, db.rentals, vehicleId, startDate, endDate, None);
      result := Ok(isAvailable);
    }

    /** GET api/rental/my-rentals: one summary per rental of the caller, latest start first. */
    method GetMyRentals(userId: Option<string>) returns (result: ActionResult<seq<RentalSummary>>)
      ensures result.Ok?
      ensures |result.value| == |GetUserRentals(db.rentals, userId)|
      ensures forall i :: 0 <= i < |result.value| ==>
                result.value[i] == Summarize(db.vehicles, GetUserRentals(db.rentals, userId)[i])
      ensures SortedDesc(result.value, SummaryStart)
      ensures userId.None? ==> result.value == []
    {
      var vehicles := db.vehicles;
      var rentals := GetUserRentals(db.rentals, userId);
      SelectKeepsOrder(rentals, r => Summarize(vehicles, r), StartKey, SummaryStart);
      if userId.None? {
        NullUserOwnsNothing(db.rentals);
      }
      result := Ok(Select(rentals, r => Summarize(vehicles, r)));
    }

    /**
     * POST api/rental/complete/{id}: only the rental's own customer may
     * complete it; a missing rental or another caller reaches no service call.
     */
    method CompleteRental(id: int, userId: Option<string>, now: DateTime) returns (result: ActionResult<MessageBody>)
      requires Valid()
      modifies db
      ensures Valid()
      ensures !result.Ok? ==> unchanged(db)
      ensures FindRental(old(db.rentals), id).None? ==> result == NotFound("Aluguel não encontrado.")
      ensures match FindRental(old(db.rentals), id)
              case None => true
              case Some(k) =>
                var r := old(db.rentals)[k];
                if Some(r.customerId) != userId then
                  result == Forbid("Você não tem permissão para completar este aluguel.")
                else if r.status != ACTIVE then
                  result == BadRequest("Erro ao finalizar aluguel: " + "Only active rentals can be completed")
                else
                  && result == Ok(MessageBody("Aluguel finalizado com sucesso!"))
                  && db.rentals == old(db.rentals)[k := r.(status := COMPLETED, endTime := now,
                       totalCost := ServiceRentalCost(old(db.vehicles)[r.vehicleId].hourlyRate, r.startTime, now))]
                  && db.vehicles == WithStatus(old(db.vehicles), r.vehicleId, AVAILABLE)
      ensures result.Ok? ==> exists k :: 0 <= k < |old(db.rentals)| && old(db.rentals)[k].id == id &&
                                       Some(old(db.rentals)[k].customerId) == userId
      ensures NoDoubleBooking(old(db.rentals)) ==> NoDoubleBooking(db.rentals)
      ensures StatusesOnlyAdvance(old(db.rentals), db.rentals)
    {
      var k := FindRental(db.rentals, id);
      if k.None? {
        return NotFound("Aluguel não encontrado.");
      }
      var rental := db.rentals[k.value];
      if Some(rental.customerId) != userId {
        return Forbid("Você não tem permissão para completar este aluguel.");
      }
      ghost var owned := k.value;
      assert db.rentals[owned].id == id && Some(db.rentals[owned].customerId) == userId;
      var outcome := rentalService.CompleteRentalAsync(id, now);
      match outcome
      case Fail(e) => result := BadRequest("Erro ao finalizar aluguel: " + e.message);
      case Pass => result := Ok(MessageBody("Aluguel finalizado com sucesso!"));
    }

    /**
     * POST api/rental/cancel/{id}: only the rental's own customer may cancel
     * it; a missing rental or another caller reaches no service call.
     */
    method CancelRental(id: int, userId: Option<string>, now: DateTime) returns (result: ActionResult<MessageBody>)
      requires Valid()
      modifies db
      ensures Valid()
      ensures !result.Ok? ==> unchanged(db)
      ensures FindRental(old(db.rentals), id).None? ==> result == NotFound("Aluguel não encontrado.")
      ensures match FindRental(old(db.rentals), id)
              case None => true
              case Some(k) =>
                var r := old(db.rentals)[k];
                if Some(r.customerId) != userId then
                  result == Forbid("Você não tem permissão para cancelar este aluguel.")
                else if r.status != ACTIVE then
                  result == BadRequest("Erro ao cancelar aluguel: " + "Only active rentals can be cancelled")
                else
                  && result == Ok(MessageBody("Aluguel cancelado com sucesso!"))
                  && db.rentals == old(db.rentals)[k := r.(status := CANCELLED)]
                  && db.vehicles == VehiclesAfterCancel(old(db.vehicles), r, now)
      ensures result.Ok? ==> exists k :: 0 <= k < |old(db.rentals)| && old(db.rentals)[k].id == id &&
                                       Some(old(db.rentals)[k].customerId) == userId
      ensures NoDoubleBooking(old(db.rentals)) ==> NoDoubleBooking(db.rentals)
      ensures StatusesOnlyAdvance(old(db.rentals), db.rentals)
    {
      var k := FindRental(db.rentals, id);
      if k.None? {
        return NotFound("Aluguel não encontrado.");
      }
      var rental := db.rentals[k.value];
      if Some(rental.customerId) != userId {
        return Forbid("Você não tem permissão para cancelar este aluguel.");
      }
      ghost var owned := k.value;
      assert db.rentals[owned].id == id && Some(db.rentals[owned].customerId) == userId;
      var outcome := rentalService.CancelRentalAsync(id, now);
      match outcome
      case Fail(e) => result := BadRequest("Erro ao cancelar aluguel: " + e.message);
      case Pass => result := Ok(MessageBody("Aluguel cancelado com sucesso!"));
    }
  }

  /** A null caller id matches no rental's customer. */
  lemma NullUserOwnsNothing(rentals: seq<Rental>)
    ensures GetUserRentals(rentals, None) == []
  {
    var matching := Where(rentals, (x: Rental) => None == Some(x.customerId));
    assert multiset(matching) == multiset{};
    var ordered := OrderByDescending(matching, StartKey);
    assert multiset(ordered) == multiset{};
  }
}
