/**
 * The rules of the unit-selection step of the booking wizard
 * (frontend/src/components/bookings/steps/UnitSelectionStep.tsx): which units of a type are free
 * for a stay, when a stay's dates are acceptable, how a yearly contract is priced, how the
 * contract length typed in is read, and which price preview a unit type shows.
 *
 * Dates are day numbers: `isBefore` is `<` and `differenceInCalendarDays` is subtraction.
 * The nightly price engine `calculateStayPrice` is not part of this model; it is passed in as a
 * function of type `StayPricer`.
 */
module Availability {
  import opened Wrappers
  import opened Lifecycle

  const AVAILABLE := "available"

  datatype Unit = Unit(id: string, typeId: string, status: string)

  datatype Booking = Booking(unitId: string, checkIn: int, checkOut: int, status: string)

  // Occupancy.

  /** The booking statuses that hold a unit. */
  predicate HoldsUnit(status: string) {
    status in [CONFIRMED, CHECKED_IN, PENDING_DEPOSIT]
  }

  /** The booking's stay `[checkIn, checkOut)` meets the requested stay `[start, end)`. */
  predicate Overlaps(b: Booking, start: int, end: int) {
    b.checkIn < end && b.checkOut > start
  }

  predicate Blocks(b: Booking, start: int, end: int) {
    HoldsUnit(b.status) && Overlaps(b, start, end)
  }

  predicate InStay(night: int, from: int, to: int) {
    from <= night < to
  }

  /** Two stays of at least one night overlap exactly when some night belongs to both. */
  lemma OverlapMeansSharedNight(b: Booking, start: int, end: int)
    requires b.checkIn < b.checkOut && start < end
    ensures Overlaps(b, start, end) <==> exists night :: InStay(night, b.checkIn, b.checkOut) && InStay(night, start, end)
  {
    if Overlaps(b, start, end) {
      var night := if b.checkIn < start then start else b.checkIn;
      assert InStay(night, b.checkIn, b.checkOut) && InStay(night, start, end);
    }
  }

  /** Cancelled and checked-out bookings never block a unit. */
  lemma FinishedBookingsNeverBlock(b: Booking, start: int, end: int)
    requires b.status == CANCELLED || b.status == CHECKED_OUT
    ensures !Blocks(b, start, end)
  {
  }

  /** A booking held from day 10 to day 15 blocks days 12-13 and 5-11 but not a stay starting on day 15. */
  lemma OverlapBoundaries()
    ensures Blocks(Booking("u", 10, 15, CONFIRMED), 12, 13)
    ensures Blocks(Booking("u", 10, 15, CONFIRMED), 5, 11)
    ensures !Blocks(Booking("u", 10, 15, CONFIRMED), 15, 20)
    ensures !Blocks(Booking("u", 10, 15, CANCELLED), 10, 15)
  {
  }

  /** The unit query: units of the type whose own status is available. */
  predicate IsCandidate(u: Unit, typeId: string) {
    u.typeId == typeId && u.status == AVAILABLE
  }

  function Candidates(units: seq<Unit>, typeId: string): seq<Unit> {
    if units == [] then []
    else (if IsCandidate(units[0], typeId) then [units[0]] else []) + Candidates(units[1..], typeId)
  }

  /** The booking query's inner join: the booked unit is a unit of the requested type. */
  predicate OfType(units: seq<Unit>, unitId: string, typeId: string) {
    exists u :: u in units && u.id == unitId && u.typeId == typeId
  }

  /** `bookedUnitIds`: the units held, for part of the stay, by a booking of a unit of the type. */
  function BookedIds(units: seq<Unit>, bookings: seq<Booking>, typeId: string, start: int, end: int): set<string> {
    set b | b in bookings && Blocks(b, start, end) && OfType(units, b.unitId, typeId) :: b.unitId
  }

  /** The units whose id is not among `ids`, in order. */
  function WithoutIds(us: seq<Unit>, ids: set<string>): seq<Unit> {
    if us == [] then [] else (if us[0].id !in ids then [us[0]] else []) + WithoutIds(us[1..], ids)
  }

  /** The units `fetchUnits` leaves for the step to offer. */
  function AvailableUnits(units: seq<Unit>, bookings: seq<Booking>, typeId: string, start: int, end: int): seq<Unit> {
    var candidates := Candidates(units, typeId);
    if candidates == [] then [] else WithoutIds(candidates, BookedIds(units, bookings, typeId, start, end))
  }

  // A reference definition of availability, unit by unit.

  /** Some booking that holds the unit meets the stay. */
  predicate Blocked(bookings: seq<Booking>, unitId: string, start: int, end: int) {
    exists b :: b in bookings && b.unitId == unitId && Blocks(b, start, end)
  }

  predicate Free(u: Unit, bookings: seq<Booking>, typeId: string, start: int, end: int) {
    IsCandidate(u, typeId) && !Blocked(bookings, u.id, start, end)
  }

  function FreeUnits(units: seq<Unit>, bookings: seq<Booking>, typeId: string, start: int, end: int): seq<Unit> {
    if units == [] then []
    else (if Free(units[0], bookings, typeId, start, end) then [units[0]] else []) + FreeUnits(units[1..], bookings, typeId, start, end)
  }

  /** `a` is `b` with some elements left out, the rest in their order. */
  predicate IsSubsequence<T(==)>(a: seq<T>, b: seq<T>) {
    a == [] || (b != [] && ((a[0] == b[0] && IsSubsequence(a[1..], b[1..])) || IsSubsequence(a, b[1..])))
  }

  lemma {:induction false} FreeUnitsSpec(units: seq<Unit>, bookings: seq<Booking>, typeId: string, start: int, end: int)
    ensures IsSubsequence(FreeUnits(units, bookings, typeId, start, end), units)
    ensures forall u :: u in FreeUnits(units, bookings, typeId, start, end) <==> u in units && Free(u, bookings, typeId, start, end)
  {
    if units != [] {
      var rest := FreeUnits(units[1..], bookings, typeId, start, end);
      FreeUnitsSpec(units[1..], bookings, typeId, start, end);
      assert units == [units[0]] + units[1..];
      if Free(units[0], bookings, typeId, start, end) {
        assert ([units[0]] + rest)[1..] == rest;
      } else {
        assert [] + rest == rest;
      }
    }
  }

  /** On units of the requested type, the booking query's join changes nothing. */
  lemma BookedIdsAreBlockedUnits(units: seq<Unit>, bookings: seq<Booking>, typeId: string, start: int, end: int, u: Unit)
    requires u in units && IsCandidate(u, typeId)
    ensures u.id in BookedIds(units, bookings, typeId, start, end) <==> Blocked(bookings, u.id, start, end)
  {
    if Blocked(bookings, u.id, start, end) {
      var b :| b in bookings && b.unitId == u.id && Blocks(b, start, end);
      assert OfType(units, b.unitId, typeId);
    }
  }

  lemma {:induction false} WithoutBookedIsFree(all: seq<Unit>, units: seq<Unit>, bookings: seq<Booking>, typeId: string, start: int, end: int)
    requires forall u :: u in units ==> u in all
    ensures WithoutIds(Candidates(units, typeId), BookedIds(all, bookings, typeId, start, end)) == FreeUnits(units, bookings, typeId, start, end)
  {
    if units != [] {
      var ids := BookedIds(all, bookings, typeId, start, end);
      WithoutBookedIsFree(all, units[1..], bookings, typeId, start, end);
      var head := if IsCandidate(units[0], typeId) then [units[0]] else [];
      var rest := Candidates(units[1..], typeId);
      WithoutIdsAppend(head, rest, ids);
      if IsCandidate(units[0], typeId) {
        BookedIdsAreBlockedUnits(all, bookings, typeId, start, end, units[0]);
        assert WithoutIds(head, ids) == (if units[0].id !in ids then [units[0]] else []) by {
          assert head[1..] == [];
        }
      }
    }
  }

  lemma {:induction false} WithoutIdsAppend(a: seq<Unit>, b: seq<Unit>, ids: set<string>)
    ensures WithoutIds(a + b, ids) == WithoutIds(a, ids) + WithoutIds(b, ids)
  {
    if a != [] {
      assert (a + b)[0] == a[0];
      assert (a + b)[1..] == a[1..] + b;
      WithoutIdsAppend(a[1..], b, ids);
    } else {
      assert a + b == b;
    }
  }

  /**
   * The units offered are exactly the available units of the type that no holding booking meets:
   * in table order, none blocked, none free left out.
   */
  lemma AvailableUnitsAreFree(units: seq<Unit>, bookings: seq<Booking>, typeId: string, start: int, end: int)
    ensures AvailableUnits(units, bookings, typeId, start, end) == FreeUnits(units, bookings, typeId, start, end)
    ensures IsSubsequence(AvailableUnits(units, bookings, typeId, start, end), units)
    ensures forall u :: u in AvailableUnits(units, bookings, typeId, start, end) <==>
      u in units && IsCandidate(u, typeId) && !Blocked(bookings, u.id, start, end)
  {
    WithoutBookedIsFree(units, units, bookings, typeId, start, end);
    FreeUnitsSpec(units, bookings, typeId, start, end);
    if Candidates(units, typeId) == [] {
      assert WithoutIds([], BookedIds(units, bookings, typeId, start, end)) == [];
    }
  }

  // Dates.

  datatype StayError = EndNotAfterStart | NoAnnualPrice

  /** `handleNext`'s date check: the departure must be at least one calendar day after the arrival. */
  function CheckStay(start: int, end: int): (r: Option<StayError>)
    ensures r == None <==> end - start >= 1
    ensures r != None ==> r == Some(EndNotAfterStart)
  {
    if end < start || end - start < 1 then Some(EndNotAfterStart) else None
  }

  /** `addMonths` moves a date forwards by at least one day per month added. */
  ghost predicate Advances(addMonths: (int, int) -> int) {
    forall day: int, months: int :: months >= 1 ==> addMonths(day, months) > day
  }

  /** The contract length read from the field: `parsed` is None when the text is not a number; anything below 1 becomes 1. */
  function ClampMonths(parsed: Option<int>): (months: int)
    ensures months >= 1
    ensures parsed.Some? && parsed.value >= 1 ==> months == parsed.value
    ensures parsed.None? || parsed.value < 1 ==> months == 1
  {
    var n := if parsed.None? || parsed.value == 0 then 1 else parsed.value;
    if n < 1 then 1 else n
  }

  // Prices.

  /** A unit type as seen by the wizard; a missing price is None. */
  datatype UnitType = UnitType(id: string, dailyPrice: Option<real>, annualPrice: Option<real>)

  /** A pricing rule; what a rule contains belongs to the price engine, which is not part of this model. */
  datatype PricingRule = PricingRule(id: string)

  datatype PriceEntry = PriceEntry(date: int, price: real, isSeason: bool)

  datatype PriceCalculation = PriceCalculation(totalPrice: real, basePrice: real, nights: int, breakdown: seq<PriceEntry>)

  /** The nightly price engine: a unit type, the active rules and the stay's dates give a price calculation. */
  type StayPricer = (UnitType, seq<PricingRule>, int, int) -> PriceCalculation

  /** The engine's own promise: a stay of at least one night is priced over that many nights. */
  ghost predicate CountsNights(price: StayPricer) {
    forall unitType, rules, start, end :: start < end ==> price(unitType, rules, start, end).nights == end - start
  }

  function SumPrices(entries: seq<PriceEntry>): real {
    if entries == [] then 0.0 else entries[0].price + SumPrices(entries[1..])
  }

  /** The unit type's annual price, 0 when it has none. */
  function AnnualPrice(t: UnitType): real {
    t.annualPrice.GetOr(0.0)
  }

  /** The yearly contract's total: the monthly rate (a twelfth of the annual price) times the months. */
  function YearlyTotal(annualPrice: real, months: int): (total: real)
    ensures total * 12.0 == annualPrice * months as real
  {
    var monthlyRate := annualPrice / 12.0;
    monthlyRate * months as real
  }

  /** The price calculation of a yearly contract: one breakdown entry on the arrival day carrying the whole total. */
  function YearlyCalculation(annualPrice: real, months: int, start: int, end: int): (c: PriceCalculation)
    ensures c.totalPrice == YearlyTotal(annualPrice, months) && c.basePrice == annualPrice
    ensures c.nights == end - start
    ensures |c.breakdown| == 1 && c.breakdown[0] == PriceEntry(start, c.totalPrice, false)
    ensures SumPrices(c.breakdown) == c.totalPrice
  {
    var total := YearlyTotal(annualPrice, months);
    var entries := [PriceEntry(start, total, false)];
    assert entries[1..] == [];
    PriceCalculation(total, annualPrice, end - start, entries)
  }

  /** Twelve months cost the annual price; six months of 12000 cost 6000. */
  lemma YearlyTotalExamples(annualPrice: real)
    ensures YearlyTotal(annualPrice, 12) == annualPrice
    ensures YearlyTotal(12000.0, 6) == 6000.0
  {
  }

  datatype BookingMode = Daily | Yearly

  /** What `getPriceDisplay` shows for a unit type. */
  datatype PriceDisplay =
    | YearlyPrice(total: Option<real>, months: int, monthlyRate: real)  // None shows '-'
    | NightlyPrice(stayTotal: real, nights: int, perNight: real)
    | DefaultRate(dailyPrice: Option<real>)

  function PriceDisplayFor(mode: BookingMode, t: UnitType, months: int, start: Option<int>, end: Option<int>,
                           rules: seq<PricingRule>, price: StayPricer): (d: PriceDisplay)
    requires CountsNights(price)
    ensures d.YearlyPrice? <==> mode == Yearly
    ensures d.YearlyPrice? ==> d.months == months && d.monthlyRate * 12.0 == AnnualPrice(t)
    ensures d.YearlyPrice? ==>
      (d.total.Some? <==> YearlyTotal(AnnualPrice(t), months) > 0.0) &&
      (d.total.Some? ==> d.total.value == YearlyTotal(AnnualPrice(t), months))
    ensures d.NightlyPrice? <==> mode == Daily && start.Some? && end.Some? && end.value - start.value > 0
    ensures d.NightlyPrice? ==>
      d.nights == end.value - start.value && d.nights > 0 &&
      d.stayTotal == price(t, rules, start.value, end.value).totalPrice && d.perNight * d.nights as real == d.stayTotal
    ensures d.DefaultRate? <==> mode == Daily && !(start.Some? && end.Some? && end.value - start.value > 0)
    ensures d.DefaultRate? ==> d.dailyPrice == t.dailyPrice
  {
    if mode == Yearly then
      var monthlyRate := AnnualPrice(t) / 12.0;
      var total := monthlyRate * months as real;
      YearlyPrice(if total > 0.0 then Some(total) else None, months, monthlyRate)
    else if start.Some? && end.Some? && !(end.value < start.value) && end.value - start.value > 0 then
      var priced := price(t, rules, start.value, end.value);
      assert mode == Daily;
      NightlyPrice(priced.totalPrice, priced.nights, priced.totalPrice / priced.nights as real)
    else
      DefaultRate(t.dailyPrice)
  }
}
