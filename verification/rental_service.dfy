/**
 * RentalService (Services/RentalService.cs): the availability test, the
 * service's own pricing rule, the rental lifecycle (create, complete, cancel,
 * extend) and the filtered listings.
 */
module RentalServices {
  import opened Wrappers
  import opened Exceptions
  import opened Time
  import opened Linq
  import opened Rentals
  import opened Vehicles
  import opened Data
  import opened VehicleServices

  // ---------------------------------------------------------------------
  // Interval conflicts

  /** The three-clause test the availability query applies to each booking of the vehicle. */
  predicate Conflicts(startDate: DateTime, endDate: DateTime, r: Rental)
  {
    || (startDate >= r.startTime && startDate < r.endTime)
    || (endDate > r.startTime && endDate <= r.endTime)
    || (startDate <= r.startTime && endDate >= r.endTime)
  }

  /** Reference definition: the half-open intervals [s1, e1) and [s2, e2) share an instant. */
  predicate Overlap(s1: DateTime, e1: DateTime, s2: DateTime, e2: DateTime)
  {
    s1 < e2 && s2 < e1
  }

  /** The three-clause test catches every half-open overlap, whatever the order of the end points. */
  lemma OverlapIsConflict(startDate: DateTime, endDate: DateTime, r: Rental)
    ensures Overlap(startDate, endDate, r.startTime, r.endTime) ==> Conflicts(startDate, endDate, r)
  {
  }

  /** For proper intervals the three-clause test is exactly half-open overlap. */
  lemma ConflictIsOverlap(startDate: DateTime, endDate: DateTime, r: Rental)
    requires startDate < endDate && r.startTime < r.endTime
    ensures Conflicts(startDate, endDate, r) <==> Overlap(startDate, endDate, r.startTime, r.endTime)
  {
  }

  /** Intervals that only touch (one ends when the other begins) do not conflict. */
  lemma TouchingIntervalsDoNotConflict(startDate: DateTime, endDate: DateTime, r: Rental)
    requires startDate < endDate && r.startTime < r.endTime
    requires endDate == r.startTime || startDate == r.endTime
    ensures !Conflicts(startDate, endDate, r)
  {
  }

  /** A booking that the availability query weighs: ACTIVE, of the vehicle, and not the excluded one. */
  predicate Blocks(r: Rental, vehicleId: int, excludeRentalId: Option<int>)
  {
    r.vehicleId == vehicleId && r.status == ACTIVE && (excludeRentalId.None? || r.id != excludeRentalId.value)
  }

  /**
   * IsVehicleAvailableForRentalAsync: the vehicle itself must be available,
   * and no blocking booking may conflict with the requested interval.
   */
  function IsVehicleAvailableForRental(vehicles: map<int, Vehicle>, rentals: seq<Rental>, vehicleId: int,
                                       startDate: DateTime, endDate: DateTime,
                                       excludeRentalId: Option<int>): (ok: bool)
    ensures ok ==> IsVehicleAvailable(vehicles, vehicleId)
    ensures ok ==> forall i :: 0 <= i < |rentals| && Blocks(rentals[i], vehicleId, excludeRentalId) ==>
                     !Overlap(startDate, endDate, rentals[i].startTime, rentals[i].endTime)
    ensures IsVehicleAvailable(vehicles, vehicleId) && startDate < endDate &&
            (forall i :: 0 <= i < |rentals| && Blocks(rentals[i], vehicleId, excludeRentalId) ==>
               rentals[i].startTime < rentals[i].endTime &&
               !Overlap(startDate, endDate, rentals[i].startTime, rentals[i].endTime))
            ==> ok
  {
    IsVehicleAvailable(vehicles, vehicleId) &&
    !exists i :: 0 <= i < |rentals| && Blocks(rentals[i], vehicleId, excludeRentalId) &&
                 Conflicts(startDate, endDate, rentals[i])
  }

  /** While a vehicle's status is RENTED every request for it is refused, whatever the interval. */
  lemma RentedVehicleIsNeverAvailable(vehicles: map<int, Vehicle>, rentals: seq<Rental>, vehicleId: int,
                                      startDate: DateTime, endDate: DateTime, excludeRentalId: Option<int>)
    requires vehicleId in vehicles && vehicles[vehicleId].status != AVAILABLE
    ensures !IsVehicleAvailableForRental(vehicles, rentals, vehicleId, startDate, endDate, excludeRentalId)
  {
  }

  // ---------------------------------------------------------------------
  // The service's pricing rule

  /**
   * CalculateRentalCostAsync's arithmetic: the whole hours, rounded up, times
   * the hourly rate. No category factor is applied.
   */
  function ServiceRentalCost(hourlyRate: real, startTime: DateTime, endTime: DateTime): (cost: real)
    ensures startTime == endTime ==> cost == 0.0
    ensures hourlyRate >= 0.0 && startTime <= endTime ==> cost >= 0.0
    ensures hourlyRate > 0.0 && startTime < endTime ==> cost >= hourlyRate
  {
    CeilingHoursPositive(endTime - startTime);
    WholeHoursScale(hourlyRate, CeilingHours(endTime - startTime));
    CeilingHours(endTime - startTime) as real * hourlyRate
  }

  lemma CeilingHoursPositive(ticks: int)
    ensures ticks > 0 ==> CeilingHours(ticks) >= 1
    ensures ticks >= 0 ==> CeilingHours(ticks) >= 0
  {
  }

  lemma WholeHoursScale(r: real, h: int)
    ensures r >= 0.0 && h >= 0 ==> h as real * r >= 0.0
    ensures r > 0.0 && h >= 1 ==> h as real * r >= r
  {
    if r >= 0.0 && h >= 0 {
      ScaleBelow(r, 0.0, h as real);
    }
    if r > 0.0 && h >= 1 {
      ScaleBelow(r, 1.0, h as real);
    }
  }

  /**
   * The service never bills less than the fractional-hour price of the
   * Bicycle rule, and less than one extra hour more.
   */
  lemma ServiceCostBracketsFractionalCost(rate: real, startTime: DateTime, endTime: DateTime)
    ensures rate >= 0.0 ==> BicycleRentalCost(rate, startTime, endTime) <= ServiceRentalCost(rate, startTime, endTime)
    ensures rate > 0.0 ==> ServiceRentalCost(rate, startTime, endTime) < BicycleRentalCost(rate, startTime, endTime) + rate
  {
    var h := CeilingHours(endTime - startTime) as real;
    var x := TotalHours(endTime - startTime);
    CeilingHoursBoundsTotalHours(endTime - startTime);
    BracketByWholeHours(rate, x, h, BicycleRentalCost(rate, startTime, endTime), ServiceRentalCost(rate, startTime, endTime));
  }

  lemma BracketByWholeHours(rate: real, x: real, h: real, fractional: real, whole: real)
    requires fractional == rate * x && whole == h * rate && h - 1.0 < x <= h
    ensures rate >= 0.0 ==> fractional <= whole
    ensures rate > 0.0 ==> whole < fractional + rate
  {
    if rate >= 0.0 {
      ScaleBelow(rate, x, h);
    }
    if rate > 0.0 {
      var d := h - x;
      assert whole - fractional == d * rate;
      assert rate - d * rate == (1.0 - d) * rate;
      PositiveProduct(1.0 - d, rate);
    }
  }

  lemma PositiveProduct(a: real, b: real)
    requires a > 0.0 && b > 0.0
    ensures a * b > 0.0
  {
  }

  lemma ScaleBelow(r: real, x: real, y: real)
    requires r >= 0.0 && x <= y
    ensures r * x <= y * r && x * r <= y * r
  {
    assert y * r - x * r == (y - x) * r;
  }

  /** With a non-negative rate, a later end never costs less. */
  lemma ServiceRentalCostMonotone(hourlyRate: real, startTime: DateTime, end1: DateTime, end2: DateTime)
    requires hourlyRate >= 0.0 && end1 <= end2
    ensures ServiceRentalCost(hourlyRate, startTime, end1) <= ServiceRentalCost(hourlyRate, startTime, end2)
  {
    CeilingHoursMonotone(end1 - startTime, end2 - startTime);
    PricesOrderedByHours(ServiceRentalCost(hourlyRate, startTime, end1), ServiceRentalCost(hourlyRate, startTime, end2),
                         CeilingHours(end1 - startTime), CeilingHours(end2 - startTime), hourlyRate);
  }

  lemma PricesOrderedByHours(x: real, y: real, h1: int, h2: int, r: real)
    requires x == h1 as real * r && y == h2 as real * r
    requires r >= 0.0 && h1 <= h2
    ensures x <= y
  {
    ScaleBelow(r, h1 as real, h2 as real);
  }

  /**
   * Pricing two pieces separately never costs less than pricing the whole:
   * the rounding happens once per piece.
   */
  lemma ServiceRentalCostSplitNeverCheaper(hourlyRate: real, startTime: DateTime, middle: DateTime, endTime: DateTime)
    requires hourlyRate >= 0.0
    ensures ServiceRentalCost(hourlyRate, startTime, middle) + ServiceRentalCost(hourlyRate, middle, endTime)
         >= ServiceRentalCost(hourlyRate, startTime, endTime)
  {
    var a := CeilingHours(middle - startTime);
    var b := CeilingHours(endTime - middle);
    var c := CeilingHours(endTime - startTime);
    assert (middle - startTime) + (endTime - middle) == endTime - startTime;
    CeilingHoursSubadditive(middle - startTime, endTime - middle);
    SplitPricesAddUp(ServiceRentalCost(hourlyRate, startTime, middle), ServiceRentalCost(hourlyRate, middle, endTime),
                     ServiceRentalCost(hourlyRate, startTime, endTime), a, b, c, hourlyRate);
  }

  lemma SplitPricesAddUp(x: real, y: real, z: real, a: int, b: int, c: int, r: real)
    requires x == a as real * r && y == b as real * r && z == c as real * r
    requires r >= 0.0 && c <= a + b
    ensures x + y >= z
  {
    SplitScale(r, a, b, c);
  }

  lemma SplitScale(r: real, a: int, b: int, c: int)
    requires r >= 0.0 && c <= a + b
    ensures a as real * r + b as real * r >= c as real * r
  {
    ScaleBelow(r, c as real, a as real + b as real);
    assert (a as real + b as real) * r == a as real * r + b as real * r;
  }

  lemma CeilingHoursSubadditive(x: int, y: int)
    ensures CeilingHours(x + y) <= CeilingHours(x) + CeilingHours(y)
  {
    var a, b, c := CeilingHours(x), CeilingHours(y), CeilingHours(x + y);
    assert (c - 1) * TicksPerHour < x + y <= (a + b) * TicksPerHour;
  }

  /** 90 minutes and then 30 more are billed as three hours, the whole two hours as two. */
  lemma SplitPricingCanChargeMore(hourlyRate: real, startTime: DateTime)
    requires hourlyRate > 0.0
    ensures ServiceRentalCost(hourlyRate, startTime, startTime + 90 * TicksPerMinute)
          + ServiceRentalCost(hourlyRate, startTime + 90 * TicksPerMinute, startTime + 120 * TicksPerMinute)
         == 3.0 * hourlyRate
    ensures ServiceRentalCost(hourlyRate, startTime, startTime + 120 * TicksPerMinute) == 2.0 * hourlyRate
  {
    assert CeilingHours(90 * TicksPerMinute) == 2;
    assert CeilingHours(30 * TicksPerMinute) == 1;
    assert CeilingHours(120 * TicksPerMinute) == 2;
  }

  /** The two rules side by side: one hour and one minute of a Car at 10.00 an hour. */
  lemma CarRulesCompared(startTime: DateTime, car: Vehicle)
    requires car.kind.Car? && car.hourlyRate == 10.0
    ensures ServiceRentalCost(car.hourlyRate, startTime, startTime + 61 * TicksPerMinute) == 20.0
    ensures CalculateRentalCost(car, startTime, startTime + 61 * TicksPerMinute) == 12.2
  {
    assert CeilingHours(61 * TicksPerMinute) == 2;
    assert TotalHours(61 * TicksPerMinute) == 61.0 / 60.0;
  }

  /** CalculateRentalCostAsync: the service rule for an existing vehicle, an error for a missing one. */
  function RentalCostFor(vehicles: map<int, Vehicle>, vehicleId: int,
                         startDate: DateTime, endDate: DateTime): (r: Result<real, Exception>)
    ensures r.Failure? <==> vehicleId !in vehicles
    ensures r.Failure? ==> r.error == ArgumentException("Vehicle not found")
    ensures r.Success? ==> r.value == ServiceRentalCost(vehicles[vehicleId].hourlyRate, startDate, endDate)
  {
    match GetVehicleById(vehicles, vehicleId)
    case None => Failure(ArgumentException("Vehicle not found"))
    case Some(vehicle) =>
      var hours := CeilingHours(endDate - startDate);
      Success(hours as real * vehicle.hourlyRate)
  }

  // ---------------------------------------------------------------------
  // Lookups and listings

  /** GetRentalByIdAsync: the position of the first row with the key, if any. */
  function FindRental(rentals: seq<Rental>, id: int): (k: Option<nat>)
    ensures k.Some? ==> k.value < |rentals| && rentals[k.value].id == id
    ensures k.Some? ==> forall j :: 0 <= j < k.value ==> rentals[j].id != id
    ensures k.None? <==> forall j :: 0 <= j < |rentals| ==> rentals[j].id != id
  {
    if rentals == [] then None
    else if rentals[0].id == id then Some(0)
    else
      match FindRental(rentals[1..], id)
      case None => None
      case Some(k) => Some(k + 1)
  }

  function StartKey(r: Rental): int
  {
    r.startTime
  }

  /** GetAllRentalsAsync: every rental, latest start first. */
  function GetAllRentals(rentals: seq<Rental>): (r: seq<Rental>)
    ensures multiset(r) == multiset(rentals) && SortedDesc(r, StartKey)
  {
    OrderByDescending(rentals, StartKey)
  }

  /** GetUserRentalsAsync: the customer's rentals, latest start first; a null user id matches none. */
  function GetUserRentals(rentals: seq<Rental>, userId: Option<string>): (r: seq<Rental>)
    ensures SortedDesc(r, StartKey)
    ensures forall x :: multiset(r)[x] == if userId == Some(x.customerId) then multiset(rentals)[x] else 0
  {
    OrderByDescending(Where(rentals, (x: Rental) => userId == Some(x.customerId)), StartKey)
  }

  /** GetRentalsByVehicleAsync: the vehicle's rentals, latest start first. */
  function GetRentalsByVehicle(rentals: seq<Rental>, vehicleId: int): (r: seq<Rental>)
    ensures SortedDesc(r, StartKey)
    ensures forall x :: multiset(r)[x] == if x.vehicleId == vehicleId then multiset(rentals)[x] else 0
  {
    OrderByDescending(Where(rentals, (x: Rental) => x.vehicleId == vehicleId), StartKey)
  }

  /**
   * The status filter of the listing: a null or empty string, or one
   * Enum.TryParse rejects, filters nothing.
   */
  function StatusFilterOf(statusFilter: Option<string>): (f: Option<ParsedStatus>)
    ensures statusFilter.None? || statusFilter == Some("") ==> f.None?
    ensures statusFilter.Some? && TryParseRentalStatus(statusFilter.value).None? ==> f.None?
  {
    match statusFilter
    case None => None
    case Some(text) => if text == "" then None else TryParseRentalStatus(text)
  }

  /** One rental against the listing's three filters. */
  predicate MatchesFilters(r: Rental, status: Option<ParsedStatus>,
                           startDateFilter: Option<DateTime>, endDateFilter: Option<DateTime>)
  {
    && (match status
        case None => true
        case Some(Defined(s)) => r.status == s
        case Some(Undefined(_)) => false)
    && (startDateFilter.None? || r.startTime >= startDateFilter.value)
    && (endDateFilter.None? || r.endTime <= endDateFilter.value)
  }

  /** The rows both the listing and the count draw from. */
  function FilteredRentals(rentals: seq<Rental>, statusFilter: Option<string>,
                           startDateFilter: Option<DateTime>, endDateFilter: Option<DateTime>): seq<Rental>
  {
    Where(rentals, FilterOf(statusFilter, startDateFilter, endDateFilter))
  }

  /** The three filters as one predicate on rows. */
  function FilterOf(statusFilter: Option<string>, startDateFilter: Option<DateTime>,
                    endDateFilter: Option<DateTime>): Rental -> bool
  {
    (r: Rental) => MatchesFilters(r, StatusFilterOf(statusFilter), startDateFilter, endDateFilter)
  }

  /** GetFilteredRentalsAsync: filter, latest start first, then one page. */
  function GetFilteredRentals(rentals: seq<Rental>, statusFilter: Option<string>,
                              startDateFilter: Option<DateTime>, endDateFilter: Option<DateTime>,
                              pageNumber: int, pageSize: int): (page: seq<Rental>)
    ensures forall r :: r in page ==>
              r in rentals && MatchesFilters(r, StatusFilterOf(statusFilter), startDateFilter, endDateFilter)
    ensures SortedDesc(page, StartKey)
    ensures |page| <= GetRentalsCount(rentals, statusFilter, startDateFilter, endDateFilter)
    ensures pageSize >= 0 ==> |page| <= pageSize
    ensures pageNumber == 1 && pageSize >= |rentals| ==>
              forall x :: multiset(page)[x] ==
                if MatchesFilters(x, StatusFilterOf(statusFilter), startDateFilter, endDateFilter)
                then multiset(rentals)[x] else 0
  {
    var matching := FilteredRentals(rentals, statusFilter, startDateFilter, endDateFilter);
    PageFacts(rentals, matching, (pageNumber - 1) * pageSize, pageSize);
    FirstPageHoldsAll(rentals, matching, pageNumber, pageSize);
    Take(Skip(OrderByDescending(matching, StartKey), (pageNumber - 1) * pageSize), pageSize)
  }

  lemma PageFacts(rentals: seq<Rental>, matching: seq<Rental>, skipped: int, pageSize: int)
    requires forall x :: multiset(matching)[x] <= multiset(rentals)[x]
    ensures var page := Take(Skip(OrderByDescending(matching, StartKey), skipped), pageSize);
            && (forall r :: r in page ==> r in matching && r in rentals)
            && SortedDesc(page, StartKey)
            && |page| <= |matching|
            && (pageSize >= 0 ==> |page| <= pageSize)
  {
    var ordered := OrderByDescending(matching, StartKey);
    SkipTakeKeepsOrder(ordered, skipped, pageSize, StartKey);
    SameMultisetFacts(ordered, matching);
    SubMultisetFacts(matching, rentals);
    var page := Take(Skip(ordered, skipped), pageSize);
    forall r | r in page
      ensures r in ordered
    {
      var i :| 0 <= i < |page| && page[i] == r;
      assert r == Skip(ordered, skipped)[i];
    }
  }

  /** With the first page at least as large as the table, the page holds every row it draws from. */
  lemma FirstPageHoldsAll(rentals: seq<Rental>, matching: seq<Rental>, pageNumber: int, pageSize: int)
    requires |matching| <= |rentals|
    ensures pageNumber == 1 && pageSize >= |rentals| ==>
              multiset(Take(Skip(OrderByDescending(matching, StartKey), (pageNumber - 1) * pageSize), pageSize))
              == multiset(matching)
  {
    if pageNumber == 1 && pageSize >= |rentals| {
      var ordered := OrderByDescending(matching, StartKey);
      SameMultisetFacts(ordered, matching);
      assert Take(Skip(ordered, 0), pageSize) == ordered;
    }
  }

  /** The filtered rows are as many as the positions whose row passes the filters. */
  lemma FilteredRentalsCount(rentals: seq<Rental>, statusFilter: Option<string>,
                             startDateFilter: Option<DateTime>, endDateFilter: Option<DateTime>)
    ensures |FilteredRentals(rentals, statusFilter, startDateFilter, endDateFilter)| ==
            |set i | 0 <= i < |rentals| &&
                     MatchesFilters(rentals[i], StatusFilterOf(statusFilter), startDateFilter, endDateFilter)|
  {
    var keep := FilterOf(statusFilter, startDateFilter, endDateFilter);
    WhereCountsMatches(rentals, keep);
    var byFilters := set i | 0 <= i < |rentals| &&
                             MatchesFilters(rentals[i], StatusFilterOf(statusFilter), startDateFilter, endDateFilter);
    assert Positions(rentals, keep) == byFilters;
  }

  /** GetRentalsCountAsync: how many rentals the same three filters keep. */
  function GetRentalsCount(rentals: seq<Rental>, statusFilter: Option<string>,
                           startDateFilter: Option<DateTime>, endDateFilter: Option<DateTime>): (n: nat)
    ensures n <= |rentals|
    ensures forall r :: r in rentals && MatchesFilters(r, StatusFilterOf(statusFilter), startDateFilter, endDateFilter)
              ==> n > 0
    ensures StatusFilterOf(statusFilter).None? && startDateFilter.None? && endDateFilter.None? ==> n == |rentals|
    ensures n == |set i | 0 <= i < |rentals| &&
                          MatchesFilters(rentals[i], StatusFilterOf(statusFilter), startDateFilter, endDateFilter)|
  {
    var matching := FilteredRentals(rentals, statusFilter, startDateFilter, endDateFilter);
    var keep := FilterOf(statusFilter, startDateFilter, endDateFilter);
    WhereKeepsEveryMatch(rentals, keep);
    FilteredRentalsCount(rentals, statusFilter, startDateFilter, endDateFilter);
    if StatusFilterOf(statusFilter).None? && startDateFilter.None? && endDateFilter.None? then
      SameMultisetFacts(matching, rentals);
      |matching|
    else
      |matching|
  }

  lemma SameMultisetFacts<T>(a: seq<T>, b: seq<T>)
    requires multiset(a) == multiset(b)
    ensures |a| == |b|
    ensures forall x :: x in a <==> x in b
  {
    assert |multiset(a)| == |multiset(b)|;
    forall x
      ensures x in a <==> x in b
    {
      assert x in a <==> x in multiset(a);
      assert x in b <==> x in multiset(b);
    }
  }

  lemma SubMultisetFacts<T>(a: seq<T>, b: seq<T>)
    requires forall x :: multiset(a)[x] <= multiset(b)[x]
    ensures forall x :: x in a ==> x in b
  {
    forall x | x in a
      ensures x in b
    {
      assert x in multiset(a);
    }
  }

  lemma WhereKeepsEveryMatch<T(!new)>(s: seq<T>, p: T -> bool)
    ensures |Where(s, p)| <= |s|
    ensures forall x :: x in s && p(x) ==> |Where(s, p)| > 0
  {
    forall x | x in s && p(x)
      ensures |Where(s, p)| > 0
    {
      assert x in multiset(s);
      assert x in multiset(Where(s, p));
    }
  }

  /** A page of a given size holds all the rows the count leaves for it, up to the size. */
  lemma PageSizeFromCount(rentals: seq<Rental>, statusFilter: Option<string>,
                          startDateFilter: Option<DateTime>, endDateFilter: Option<DateTime>,
                          pageNumber: int, pageSize: int)
    requires pageNumber >= 1 && pageSize >= 0
    ensures var n := GetRentalsCount(rentals, statusFilter, startDateFilter, endDateFilter);
            var skipped := (pageNumber - 1) * pageSize;
            |GetFilteredRentals(rentals, statusFilter, startDateFilter, endDateFilter, pageNumber, pageSize)|
            == if skipped >= n then 0 else if n - skipped < pageSize then n - skipped else pageSize
  {
    var matching := FilteredRentals(rentals, statusFilter, startDateFilter, endDateFilter);
    var ordered := OrderByDescending(matching, StartKey);
    assert |ordered| == |matching| by {
      assert |multiset(ordered)| == |multiset(matching)|;
    }
    assert (pageNumber - 1) * pageSize >= 0;
  }

  // ---------------------------------------------------------------------
  // The central invariant

  /** No two ACTIVE rentals of the same vehicle share an instant. */
  ghost predicate NoDoubleBooking(rentals: seq<Rental>)
  {
    forall i, j :: 0 <= i < |rentals| && 0 <= j < |rentals| && i != j &&
                   rentals[i].status == ACTIVE && rentals[j].status == ACTIVE &&
                   rentals[i].vehicleId == rentals[j].vehicleId ==>
                   !Overlap(rentals[i].startTime, rentals[i].endTime, rentals[j].startTime, rentals[j].endTime)
  }

  /** Appending a booking that passed the availability test keeps the invariant. */
  lemma BookingKeepsNoDoubleBooking(vehicles: map<int, Vehicle>, rentals: seq<Rental>, r: Rental)
    requires NoDoubleBooking(rentals)
    requires IsVehicleAvailableForRental(vehicles, rentals, r.vehicleId, r.startTime, r.endTime, None)
    ensures NoDoubleBooking(rentals + [r])
  {
    var rs := rentals + [r];
    forall i, j | 0 <= i < |rs| && 0 <= j < |rs| && i != j && rs[i].status == ACTIVE && rs[j].status == ACTIVE &&
                  rs[i].vehicleId == rs[j].vehicleId
      ensures !Overlap(rs[i].startTime, rs[i].endTime, rs[j].startTime, rs[j].endTime)
    {
      if j == |rentals| {
        assert Blocks(rentals[i], r.vehicleId, None);
      } else if i == |rentals| {
        assert Blocks(rentals[j], r.vehicleId, None);
      }
    }
  }

  /** Moving one rental out of ACTIVE keeps the invariant. */
  lemma ClosingKeepsNoDoubleBooking(rentals: seq<Rental>, k: nat, closed: Rental)
    requires NoDoubleBooking(rentals) && k < |rentals| && closed.status != ACTIVE
    ensures NoDoubleBooking(rentals[k := closed])
  {
  }

  /**
   * Moving a rental's end later keeps the invariant when the added stretch
   * [old end, new end) passed the availability test with the rental itself
   * excluded. The rental's own status plays no part.
   */
  lemma ExtensionKeepsNoDoubleBooking(vehicles: map<int, Vehicle>, rentals: seq<Rental>, k: nat,
                                      newEndDate: DateTime, newCost: real)
    requires NoDoubleBooking(rentals) && UniqueRentalIds(rentals) && k < |rentals|
    requires rentals[k].endTime < newEndDate
    requires IsVehicleAvailableForRental(vehicles, rentals, rentals[k].vehicleId, rentals[k].endTime, newEndDate,
                                         Some(rentals[k].id))
    ensures NoDoubleBooking(rentals[k := rentals[k].(endTime := newEndDate, totalCost := newCost)])
  {
    var old_ := rentals[k];
    var rs := rentals[k := old_.(endTime := newEndDate, totalCost := newCost)];
    forall i, j | 0 <= i < |rs| && 0 <= j < |rs| && i != j && rs[i].status == ACTIVE && rs[j].status == ACTIVE &&
                  rs[i].vehicleId == rs[j].vehicleId
      ensures !Overlap(rs[i].startTime, rs[i].endTime, rs[j].startTime, rs[j].endTime)
    {
      if i == k || j == k {
        var other := if i == k then j else i;
        assert Blocks(rentals[other], old_.vehicleId, Some(old_.id));
        assert !Overlap(old_.startTime, old_.endTime, rentals[other].startTime, rentals[other].endTime);
        assert !Overlap(old_.endTime, newEndDate, rentals[other].startTime, rentals[other].endTime);
      }
    }
  }

  /** The update branch of CreateRentalAsync checks nothing, so it can double-book. */
  lemma UpdatePathCanDoubleBook()
    ensures var before := [Rental(1, "a", 7, 0, 10, 0.0, ACTIVE, None), Rental(2, "b", 7, 20, 30, 0.0, ACTIVE, None)];
            var after := before[1 := Rental(2, "b", 7, 5, 15, 0.0, ACTIVE, None)];
            NoDoubleBooking(before) && !NoDoubleBooking(after)
  {
    var before := [Rental(1, "a", 7, 0, 10, 0.0, ACTIVE, None), Rental(2, "b", 7, 20, 30, 0.0, ACTIVE, None)];
    var after := before[1 := Rental(2, "b", 7, 5, 15, 0.0, ACTIVE, None)];
    assert Overlap(after[0].startTime, after[0].endTime, after[1].startTime, after[1].endTime);
  }

  /**
   * Between two states of the table: no row disappears or moves, and every
   * row's status changes only as the lifecycle allows.
   */
  ghost predicate StatusesOnlyAdvance(before: seq<Rental>, after: seq<Rental>)
  {
    |before| <= |after| &&
    forall i :: 0 <= i < |before| ==> StatusTransitionAllowed(before[i].status, after[i].status)
  }

  /** Applying the relation twice is covered by applying it once. */
  lemma {:induction false} StatusesOnlyAdvanceTransitive(a: seq<Rental>, b: seq<Rental>, c: seq<Rental>)
    requires StatusesOnlyAdvance(a, b) && StatusesOnlyAdvance(b, c)
    ensures StatusesOnlyAdvance(a, c)
  {
    forall i | 0 <= i < |a|
      ensures StatusTransitionAllowed(a[i].status, c[i].status)
    {
      if a[i].status != ACTIVE {
        TerminalStatusesAreFinal(a[i].status, b[i].status);
        TerminalStatusesAreFinal(b[i].status, c[i].status);
      }
    }
  }

  /**
   * The Vehicles table after cancelling an ACTIVE rental: its vehicle is
   * released only when the rental had not started yet.
   */
  function VehiclesAfterCancel(vehicles: map<int, Vehicle>, r: Rental, now: DateTime): (after: map<int, Vehicle>)
    ensures after.Keys == vehicles.Keys
    ensures r.startTime > now && r.vehicleId in vehicles ==>
              after[r.vehicleId].status == AVAILABLE && after[r.vehicleId].available
    ensures r.startTime <= now ==> after == vehicles
    ensures forall id :: id in vehicles && id != r.vehicleId ==> id in after && after[id] == vehicles[id]
  {
    if r.startTime > now then WithStatus(vehicles, r.vehicleId, AVAILABLE) else vehicles
  }

  // ---------------------------------------------------------------------
  // The service

  class RentalService {
    const db: ApplicationDbContext
    const vehicleService: VehicleService

    ghost predicate Valid()
      reads this, db
    {
      vehicleService.db == db && db.Valid()
    }

    constructor (db: ApplicationDbContext, vehicleService: VehicleService)
      requires vehicleService.db == db
      ensures this.db == db && this.vehicleService == vehicleService
    {
      this.db := db;
      this.vehicleService := vehicleService;
    }

    /**
     * CreateRentalAsync. A rental with key 0 is a new booking: it must pass
     * the availability test, is priced by the service rule, becomes ACTIVE
     * whatever status it came with, and its vehicle becomes RENTED. Any other
     * key overwrites the stored row without a check.
     */
    method CreateRentalAsync(rental: Rental) returns (result: Result<Rental, Exception>)
      requires Valid()
      modifies db
      ensures Valid()
      ensures rental.id == 0 &&
              !IsVehicleAvailableForRental(old(db.vehicles), old(db.rentals), rental.vehicleId,
                                           rental.startTime, rental.endTime, None) ==>
                && result == Failure(InvalidOperationException("Vehicle is not available for the selected period"))
                && unchanged(db)
      ensures rental.id == 0 &&
              IsVehicleAvailableForRental(old(db.vehicles), old(db.rentals), rental.vehicleId,
                                          rental.startTime, rental.endTime, None) ==>
                && rental.vehicleId in old(db.vehicles)
                && result == Success(rental.(id := old(db.nextRentalId), status := ACTIVE,
                                             totalCost := ServiceRentalCost(old(db.vehicles)[rental.vehicleId].hourlyRate,
                                                                            rental.startTime, rental.endTime)))
                && db.rentals == old(db.rentals) + [result.value]
                && db.vehicles == WithStatus(old(db.vehicles), rental.vehicleId, RENTED)
                && db.vehicles[rental.vehicleId].status == RENTED && !db.vehicles[rental.vehicleId].available
      ensures rental.id == 0 && NoDoubleBooking(old(db.rentals)) ==> NoDoubleBooking(db.rentals)
      ensures rental.id == 0 ==> StatusesOnlyAdvance(old(db.rentals), db.rentals)
      ensures rental.id != 0 ==>
                match FindRental(old(db.rentals), rental.id)
                case None =>
                  && result == Failure(DbUpdateConcurrencyException(ConcurrencyFailedMessage))
                  && unchanged(db)
                case Some(k) =>
                  if rental.vehicleId !in old(db.vehicles) then
                    && result == Failure(DbUpdateException(SaveFailedMessage))
                    && unchanged(db)
                  else
                    && result == Success(rental)
                    && db.rentals == old(db.rentals)[k := rental]
                    && db.vehicles == old(db.vehicles)
      ensures FleetInLockstep(old(db.vehicles)) ==> FleetInLockstep(db.vehicles)
    {
      if rental.id == 0 {
        if !IsVehicleAvailableForRental(db.vehicles, db.rentals, rental.vehicleId, rental.startTime, rental.endTime, None) {
          return Failure(InvalidOperationException("Vehicle is not available for the selected period"));
        }
        ghost var rentalsBefore := db.rentals;
        var cost := RentalCostFor(db.vehicles, rental.vehicleId, rental.startTime, rental.endTime);
        var created := rental.(totalCost := cost.value, status := ACTIVE);
        vehicleService.UpdateVehicleStatusAsync(rental.vehicleId, RENTED);
        created := created.(id := db.nextRentalId);
        db.rentals := db.rentals + [created];
        db.nextRentalId := db.nextRentalId + 1;
        if NoDoubleBooking(rentalsBefore) {
          BookingKeepsNoDoubleBooking(old(db.vehicles), rentalsBefore, created);
        }
        result := Success(created);
      } else {
        var k := FindRental(db.rentals, rental.id);
        if k.None? {
          return Failure(DbUpdateConcurrencyException(ConcurrencyFailedMessage));
        }
        if rental.vehicleId !in db.vehicles {
          return Failure(DbUpdateException(SaveFailedMessage));
        }
        db.rentals := db.rentals[k.value := rental];
        result := Success(rental);
      }
    }

    /**
     * CompleteRentalAsync: only an ACTIVE rental can be completed. It ends
     * now, is re-priced by the service rule over [start, now), and its
     * vehicle becomes AVAILABLE.
     */
    method CompleteRentalAsync(rentalId: int, now: DateTime) returns (outcome: Outcome<Exception>)
      requires Valid()
      modifies db
      ensures Valid()
      ensures FindRental(old(db.rentals), rentalId).None? ==>
                outcome == Fail(ArgumentException("Rental not found")) && unchanged(db)
      ensures match FindRental(old(db.rentals), rentalId)
              case None => true
              case Some(k) =>
                var r := old(db.rentals)[k];
                if r.status != ACTIVE then
                  outcome == Fail(InvalidOperationException("Only active rentals can be completed")) && unchanged(db)
                else
                  && r.vehicleId in old(db.vehicles)
                  && outcome == Pass
                  && db.rentals == old(db.rentals)[k := r.(status := COMPLETED, endTime := now,
                       totalCost := ServiceRentalCost(old(db.vehicles)[r.vehicleId].hourlyRate, r.startTime, now))]
                  && db.vehicles == WithStatus(old(db.vehicles), r.vehicleId, AVAILABLE)
      ensures NoDoubleBooking(old(db.rentals)) ==> NoDoubleBooking(db.rentals)
      ensures StatusesOnlyAdvance(old(db.rentals), db.rentals)
      ensures FleetInLockstep(old(db.vehicles)) ==> FleetInLockstep(db.vehicles)
    {
      var k := FindRental(db.rentals, rentalId);
      if k.None? {
        return Fail(ArgumentException("Rental not found"));
      }
      var rental := db.rentals[k.value];
      if rental.status != ACTIVE {
        return Fail(InvalidOperationException("Only active rentals can be completed"));
      }
      var hoursUsed := CeilingHours(now - rental.startTime);
      var completed := rental.(status := COMPLETED, endTime := now,
                               totalCost := hoursUsed as real * db.vehicles[rental.vehicleId].hourlyRate);
      assert completed.totalCost == ServiceRentalCost(db.vehicles[rental.vehicleId].hourlyRate, rental.startTime, now);
      if NoDoubleBooking(db.rentals) {
        ClosingKeepsNoDoubleBooking(db.rentals, k.value, completed);
      }
      db.rentals := db.rentals[k.value := completed];
      vehicleService.UpdateVehicleStatusAsync(rental.vehicleId, AVAILABLE);
      outcome := Pass;
    }

    /**
     * CancelRentalAsync: only an ACTIVE rental can be cancelled; its times
     * and cost stay as they were. The vehicle becomes AVAILABLE only when the
     * rental had not started yet.
     */
    method CancelRentalAsync(rentalId: int, now: DateTime) returns (outcome: Outcome<Exception>)
      requires Valid()
      modifies db
      ensures Valid()
      ensures FindRental(old(db.rentals), rentalId).None? ==>
                outcome == Fail(ArgumentException("Rental not found")) && unchanged(db)
      ensures match FindRental(old(db.rentals), rentalId)
              case None => true
              case Some(k) =>
                var r := old(db.rentals)[k];
                if r.status != ACTIVE then
                  outcome == Fail(InvalidOperationException("Only active rentals can be cancelled")) && unchanged(db)
                else
                  && outcome == Pass
                  && db.rentals == old(db.rentals)[k := r.(status := CANCELLED)]
                  && db.vehicles == VehiclesAfterCancel(old(db.vehicles), r, now)
      ensures NoDoubleBooking(old(db.rentals)) ==> NoDoubleBooking(db.rentals)
      ensures StatusesOnlyAdvance(old(db.rentals), db.rentals)
      ensures FleetInLockstep(old(db.vehicles)) ==> FleetInLockstep(db.vehicles)
    {
      var k := FindRental(db.rentals, rentalId);
      if k.None? {
        return Fail(ArgumentException("Rental not found"));
      }
      var rental := db.rentals[k.value];
      if rental.status != ACTIVE {
        return Fail(InvalidOperationException("Only active rentals can be cancelled"));
      }
      if NoDoubleBooking(db.rentals) {
        ClosingKeepsNoDoubleBooking(db.rentals, k.value, rental.(status := CANCELLED));
      }
      db.rentals := db.rentals[k.value := rental.(status := CANCELLED)];
      if rental.startTime > now {
        vehicleService.UpdateVehicleStatusAsync(rental.vehicleId, AVAILABLE);
      }
      outcome := Pass;
    }

    /**
     * ExtendRentalAsync: the new end must be later than the current one and
     * the added stretch must pass the availability test with the rental
     * itself excluded; the stretch is priced by the service rule and added to
     * the cost. The rental's status is neither checked nor changed.
     */
    method ExtendRentalAsync(rentalId: int, newEndDate: DateTime) returns (outcome: Outcome<Exception>)
      requires Valid()
      modifies db
      ensures Valid()
      ensures FindRental(old(db.rentals), rentalId).None? ==>
                outcome == Fail(ArgumentException("Rental not found")) && unchanged(db)
      ensures match FindRental(old(db.rentals), rentalId)
              case None => true
              case Some(k) =>
                var r := old(db.rentals)[k];
                if newEndDate <= r.endTime then
                  outcome == Fail(ArgumentException("New end date must be after current end date")) && unchanged(db)
                else if !IsVehicleAvailableForRental(old(db.vehicles), old(db.rentals), r.vehicleId,
                                                     r.endTime, newEndDate, Some(rentalId)) then
                  outcome == Fail(InvalidOperationException("Vehicle not available for the extended period"))
                  && unchanged(db)
                else
                  && r.vehicleId in old(db.vehicles)
                  && outcome == Pass
                  && db.rentals == old(db.rentals)[k := r.(endTime := newEndDate,
                       totalCost := r.totalCost + ServiceRentalCost(old(db.vehicles)[r.vehicleId].hourlyRate,
                                                                    r.endTime, newEndDate))]
                  && db.vehicles == old(db.vehicles)
      ensures NoDoubleBooking(old(db.rentals)) ==> NoDoubleBooking(db.rentals)
      ensures StatusesOnlyAdvance(old(db.rentals), db.rentals)
    {
      var k := FindRental(db.rentals, rentalId);
      if k.None? {
        return Fail(ArgumentException("Rental not found"));
      }
      var rental := db.rentals[k.value];
      if newEndDate <= rental.endTime {
        return Fail(ArgumentException("New end date must be after current end date"));
      }
      if !IsVehicleAvailableForRental(db.vehicles, db.rentals, rental.vehicleId, rental.endTime, newEndDate, Some(rentalId)) {
        return Fail(InvalidOperationException("Vehicle not available for the extended period"));
      }
      var additionalCost := RentalCostFor(db.vehicles, rental.vehicleId, rental.endTime, newEndDate);
      var extended := rental.(totalCost := rental.totalCost + additionalCost.value, endTime := newEndDate);
      if NoDoubleBooking(db.rentals) {
        ExtensionKeepsNoDoubleBooking(db.vehicles, db.rentals, k.value, newEndDate, extended.totalCost);
      }
      db.rentals := db.rentals[k.value := extended];
      outcome := Pass;
    }
  }
}
