/**
 * The state of the unit-selection step of the booking wizard: what the guest asked for (mode of
 * stay, dates, contract length, unit type), the units offered, the unit picked, and what "next"
 * hands on to the pricing step. Each setter runs the component's effects to rest: the yearly
 * departure sync, then the synchronous start of the unit fetch; `LoadUnits` is the fetch's reply.
 */
module UnitSelection {
  import opened Wrappers
  import opened Availability

  /** What the step hands to the next one. */
  datatype Selection = Selection(unitType: UnitType, unit: Unit, start: int, end: int,
                                 calculation: PriceCalculation, mode: BookingMode)

  datatype NextOutcome = NotReady | Stopped(error: StayError) | Proceed(selection: Selection)

  class Wizard {
    /** date-fns `addMonths` on day numbers, and the nightly price engine: both outside this model. */
    const addMonths: (int, int) -> int
    const stayPrice: StayPricer
    /** The active pricing rules, loaded once when the step opens. */
    const pricingRules: seq<PricingRule>

    var mode: BookingMode
    var startDate: Option<int>
    var endDate: Option<int>
    var durationMonths: int
    var selectedType: Option<UnitType>
    var availableUnits: seq<Unit>
    var selectedUnit: Option<Unit>
    var loadingUnits: bool

    ghost predicate Valid()
      reads this
    {
      durationMonths >= 1 &&
      (mode == Yearly && startDate.Some? ==> endDate == Some(addMonths(startDate.value, durationMonths))) &&
      (selectedUnit.Some? ==> selectedUnit.value in availableUnits && !loadingUnits)
    }

    /** Everything the unit query needs is there. */
    predicate Ready()
      reads this
    {
      selectedType.Some? && startDate.Some? && endDate.Some?
    }

    /** The inputs the unit fetch depends on. */
    function FetchKey(): (Option<UnitType>, Option<int>, Option<int>)
      reads this
    {
      (selectedType, startDate, endDate)
    }

    /** The unit list after the fetch effect has (`changed`) or has not been triggered. */
    ghost predicate AfterFetch(changed: bool, oldUnits: seq<Unit>, oldSelected: Option<Unit>, oldLoading: bool)
      reads this
    {
      if !changed then availableUnits == oldUnits && selectedUnit == oldSelected && loadingUnits == oldLoading
      else if !Ready() then availableUnits == [] && selectedUnit == None && loadingUnits == oldLoading
      else availableUnits == oldUnits && selectedUnit == None && loadingUnits
    }

    /** The departure the yearly sync sets, if it fires. */
    function YearlyEnd(otherwise: Option<int>): Option<int>
      reads this
    {
      if mode == Yearly && startDate.Some? then Some(addMonths(startDate.value, durationMonths)) else otherwise
    }

    constructor(addMonths: (int, int) -> int, stayPrice: StayPricer, pricingRules: seq<PricingRule>, today: int,
                initialType: Option<UnitType>, initialStart: Option<int>, initialEnd: Option<int>,
                initialMode: Option<BookingMode>)
      ensures this.addMonths == addMonths && this.stayPrice == stayPrice && this.pricingRules == pricingRules
      ensures mode == initialMode.GetOr(Daily) && durationMonths == 12 && selectedType == initialType
      ensures startDate == Some(initialStart.GetOr(today))
      ensures endDate == YearlyEnd(Some(initialEnd.GetOr(today + 1)))
      ensures selectedUnit == None && availableUnits == [] && loadingUnits == initialType.Some?
      ensures Valid()
    {
      this.addMonths := addMonths;
      this.stayPrice := stayPrice;
      this.pricingRules := pricingRules;
      mode := initialMode.GetOr(Daily);
      durationMonths := 12;
      selectedType := initialType;
      startDate := Some(initialStart.GetOr(today));
      endDate := Some(initialEnd.GetOr(today + 1));
      availableUnits := [];
      selectedUnit := None;
      loadingUnits := false;
      new;
      SyncYearlyEnd();
      loadingUnits := selectedType.Some?;
    }

    /** The effect that keeps a yearly contract's departure `durationMonths` after the arrival. */
    method SyncYearlyEnd()
      modifies this
      ensures endDate == old(YearlyEnd(endDate))
      ensures mode == old(mode) && startDate == old(startDate) && durationMonths == old(durationMonths)
      ensures selectedType == old(selectedType) && availableUnits == old(availableUnits)
      ensures selectedUnit == old(selectedUnit) && loadingUnits == old(loadingUnits)
    {
      if mode == Yearly && startDate.Some? {
        endDate := Some(addMonths(startDate.value, durationMonths));
      }
    }

    /** The synchronous start of `fetchUnits`, when its inputs differ from `previous`. */
    method StartFetch(previous: (Option<UnitType>, Option<int>, Option<int>))
      modifies this
      ensures AfterFetch(FetchKey() != previous, old(availableUnits), old(selectedUnit), old(loadingUnits))
      ensures mode == old(mode) && startDate == old(startDate) && endDate == old(endDate)
      ensures durationMonths == old(durationMonths) && selectedType == old(selectedType)
    {
      if FetchKey() != previous {
        if !Ready() {
          availableUnits := [];
          selectedUnit := None;
        } else {
          loadingUnits := true;
          selectedUnit := None;
        }
      }
    }

    method SetMode(m: BookingMode)
      requires Valid()
      modifies this
      ensures mode == m && startDate == old(startDate) && durationMonths == old(durationMonths)
      ensures selectedType == old(selectedType)
      ensures endDate == YearlyEnd(old(endDate))
      ensures AfterFetch(FetchKey() != old(FetchKey()), old(availableUnits), old(selectedUnit), old(loadingUnits))
      ensures Valid()
    {
      var previous := FetchKey();
      mode := m;
      SyncYearlyEnd();
      StartFetch(previous);
    }

    method SetStartDate(d: Option<int>)
      requires Valid()
      modifies this
      ensures startDate == d && mode == old(mode) && durationMonths == old(durationMonths)
      ensures selectedType == old(selectedType)
      ensures endDate == YearlyEnd(old(endDate))
      ensures AfterFetch(FetchKey() != old(FetchKey()), old(availableUnits), old(selectedUnit), old(loadingUnits))
      ensures Valid()
    {
      var previous := FetchKey();
      startDate := d;
      SyncYearlyEnd();
      StartFetch(previous);
    }

    /** The departure field is disabled for yearly contracts. */
    method SetEndDate(d: Option<int>)
      requires Valid() && mode == Daily
      modifies this
      ensures endDate == d && startDate == old(startDate) && mode == old(mode)
      ensures durationMonths == old(durationMonths) && selectedType == old(selectedType)
      ensures AfterFetch(FetchKey() != old(FetchKey()), old(availableUnits), old(selectedUnit), old(loadingUnits))
      ensures Valid()
    {
      var previous := FetchKey();
      endDate := d;
      StartFetch(previous);
    }

    /** The contract-length field, shown for yearly contracts only; `parsed` is `parseInt` of the text. */
    method SetDuration(parsed: Option<int>)
      requires Valid() && mode == Yearly
      modifies this
      ensures durationMonths == ClampMonths(parsed)
      ensures startDate == old(startDate) && mode == old(mode) && selectedType == old(selectedType)
      ensures endDate == YearlyEnd(old(endDate))
      ensures AfterFetch(FetchKey() != old(FetchKey()), old(availableUnits), old(selectedUnit), old(loadingUnits))
      ensures Valid()
    {
      var previous := FetchKey();
      durationMonths := ClampMonths(parsed);
      SyncYearlyEnd();
      StartFetch(previous);
    }

    method SelectType(t: UnitType)
      requires Valid()
      modifies this
      ensures selectedType == Some(t)
      ensures mode == old(mode) && startDate == old(startDate) && endDate == old(endDate)
      ensures durationMonths == old(durationMonths)
      ensures AfterFetch(FetchKey() != old(FetchKey()), old(availableUnits), old(selectedUnit), old(loadingUnits))
      ensures Valid()
    {
      var previous := FetchKey();
      selectedType := Some(t);
      StartFetch(previous);
    }

    /** Units can be picked only from the list shown, which is hidden while it loads. */
    method SelectUnit(u: Unit)
      requires Valid() && !loadingUnits && u in availableUnits
      modifies this
      ensures selectedUnit == Some(u)
      ensures mode == old(mode) && startDate == old(startDate) && endDate == old(endDate)
      ensures durationMonths == old(durationMonths) && selectedType == old(selectedType)
      ensures availableUnits == old(availableUnits) && loadingUnits == old(loadingUnits)
      ensures Valid()
    {
      selectedUnit := Some(u);
    }

    /**
     * The reply to the current unit fetch: the unit table and the booking table as the two queries
     * see them, or a failure of either query, which leaves the list as it was.
     */
    method LoadUnits(units: seq<Availability.Unit>, bookings: seq<Booking>, failed: bool)
      requires Valid() && loadingUnits && Ready()
      modifies this
      ensures mode == old(mode) && startDate == old(startDate) && endDate == old(endDate)
      ensures durationMonths == old(durationMonths) && selectedType == old(selectedType)
      ensures selectedUnit == old(selectedUnit)
      ensures !loadingUnits
      ensures failed ==> availableUnits == old(availableUnits)
      ensures !failed ==> availableUnits == AvailableUnits(units, bookings, selectedType.value.id, startDate.value, endDate.value)
      ensures !failed ==> forall u :: u in availableUnits <==>
        u in units && IsCandidate(u, selectedType.value.id) && !Blocked(bookings, u.id, startDate.value, endDate.value)
      ensures Valid()
    {
      if !failed {
        availableUnits := AvailableUnits(units, bookings, selectedType.value.id, startDate.value, endDate.value);
        AvailableUnitsAreFree(units, bookings, selectedType.value.id, startDate.value, endDate.value);
      }
      loadingUnits := false;
    }

    /** `handleNext`: what the step hands on, or why it stops. */
    method Next() returns (o: NextOutcome)
      requires Valid()
      ensures o == NotReady <==> !Ready() || selectedUnit.None?
      ensures o.Stopped? <==> (Ready() && selectedUnit.Some? &&
        (CheckStay(startDate.value, endDate.value).Some? || (mode == Yearly && AnnualPrice(selectedType.value) == 0.0)))
      ensures o.Stopped? ==> o.error == (if CheckStay(startDate.value, endDate.value).Some? then EndNotAfterStart else NoAnnualPrice)
      ensures o.Proceed? ==> o.selection == Selection(selectedType.value, selectedUnit.value, startDate.value, endDate.value,
        if mode == Yearly then YearlyCalculation(AnnualPrice(selectedType.value), durationMonths, startDate.value, endDate.value)
        else stayPrice(selectedType.value, pricingRules, startDate.value, endDate.value), mode)
      ensures o.Proceed? ==> o.selection.unit in availableUnits && o.selection.end - o.selection.start >= 1
      ensures o.Proceed? && mode == Yearly ==>
        o.selection.end == addMonths(o.selection.start, durationMonths) &&
        o.selection.calculation.totalPrice * 12.0 == AnnualPrice(selectedType.value) * durationMonths as real
      ensures mode == Yearly && Advances(addMonths) ==> o != Stopped(EndNotAfterStart)
    {
      if !Ready() || selectedUnit.None? {
        return NotReady;
      }
      var start, end := startDate.value, endDate.value;
      if CheckStay(start, end).Some? {
        return Stopped(EndNotAfterStart);
      }
      var calculation: PriceCalculation;
      if mode == Yearly {
        var annualPrice := AnnualPrice(selectedType.value);
        if annualPrice == 0.0 {
          return Stopped(NoAnnualPrice);
        }
        calculation := YearlyCalculation(annualPrice, durationMonths, start, end);
      } else {
        calculation := stayPrice(selectedType.value, pricingRules, start, end);
      }
      o := Proceed(Selection(selectedType.value, selectedUnit.value, start, end, calculation, mode));
    }
  }
}
