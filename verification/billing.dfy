/**
 * The charge for one stay (`Payment.calculateTotal`): billed hours, the
 * ordered hourly-rate rules, the overstay fine and the Reserved-misuse
 * surcharge. The OKU card lookup is the boolean `isOku`.
 */
module Billing {
  import opened Wrappers
  import opened Text
  import opened SpotTypes
  import opened Vehicles
  import opened Spots
  import opened Fines

  /** The flat surcharge `Payment` adds for misuse of a Reserved spot. */
  const MisuseSurcharge: int := 50

  /** The hourly rate an OKU card holder pays when the free rule does not apply. */
  const OkuRate: int := 2

  /** The rate `Payment` charges for a spot type outside the four names. */
  const PaymentUnknownRate: int := 5

  /**
   * The standard rate table, an exact-case `switch` on the spot type string;
   * `unknownRate` is what the `default` branch returns.
   */
  function StandardRate(spotType: string, unknownRate: int): (rate: int)
    ensures FromDisplayName(Some(spotType)).Some? ==> rate == ClassRate(FromDisplayName(Some(spotType)).value)
    ensures FromDisplayName(Some(spotType)).None? ==> rate == unknownRate
  {
    if spotType == "Compact" then 2
    else if spotType == "Regular" then 5
    else if spotType == "Handicapped" then 2
    else if spotType == "Reserved" then 10
    else unknownRate
  }

  /** The free rule: a handicapped vehicle with an OKU card in a Handicapped spot, names compared ignoring case. */
  predicate FreeForOku(spotType: string, vehicleType: Option<string>, isOku: bool) {
    vehicleType.Some? && EqualsIgnoreCase("Handicapped Vehicle", vehicleType.value)
    && isOku && EqualsIgnoreCase("Handicapped", spotType)
  }

  /**
   * The three rate rules in priority order: free for OKU in a Handicapped
   * spot, otherwise 2 RM for any OKU holder, otherwise the standard table.
   */
  function ResolveRate(spotType: string, vehicleType: Option<string>, isOku: bool, unknownRate: int): (rate: int)
    ensures FreeForOku(spotType, vehicleType, isOku) ==> rate == 0
    ensures isOku && !FreeForOku(spotType, vehicleType, isOku) ==> rate == OkuRate
    ensures !isOku ==> rate == StandardRate(spotType, unknownRate)
    ensures 0 <= unknownRate ==> 0 <= rate
  {
    if FreeForOku(spotType, vehicleType, isOku) then 0
    else if isOku then OkuRate
    else StandardRate(spotType, unknownRate)
  }

  /** Every spot class is charged, without a card, exactly the rate its constructor records. */
  lemma StandardRateIsSpotRate(k: SpotType, unknownRate: int)
    ensures StandardRate(DisplayName(k), unknownRate) == ClassRate(k)
    ensures StandardRate(NewSpot(k, "").TypeName(), unknownRate) == NewSpot(k, "").hourlyRate
  {
  }

  /** On the four spot types a card holder never pays more than anyone else. */
  lemma OkuNeverPaysMore(k: SpotType, vehicleType: Option<string>, unknownRate: int)
    ensures ResolveRate(DisplayName(k), vehicleType, true, unknownRate) <= ResolveRate(DisplayName(k), vehicleType, false, unknownRate)
  {
  }

  /** Only the full label "Handicapped Vehicle" (in any case) earns the free rate; "HANDICAPPED" does not. */
  lemma FreeRuleNeedsFullLabel(spotType: string)
    ensures !FreeForOku(spotType, Some("HANDICAPPED"), true)
    ensures FreeForOku("Handicapped", Some("handicapped vehicle"), true)
    ensures !FreeForOku("Handicapped", None, true)
  {
  }

  /**
   * The hours `Payment` bills for a stay of `minutes` whole minutes: rounded up
   * to whole hours, with at least one hour charged.
   */
  function BilledHours(minutes: int): (hours: int)
    ensures hours >= 1
    ensures minutes <= 60 * hours
    ensures hours > 1 ==> 60 * (hours - 1) < minutes
  {
    var h := CeilHours(minutes);
    if h <= 0 then 1 else h
  }

  /** For a stay of at least one minute, billing and `calculateDuration` agree; otherwise billing charges one hour. */
  lemma BilledHoursVsDuration(minutes: int)
    ensures minutes > 0 ==> BilledHours(minutes) == CeilHours(minutes)
    ensures minutes <= 0 ==> BilledHours(minutes) == 1 && CeilHours(minutes) <= 0
  {
  }

  lemma BilledHoursMonotone(m1: int, m2: int)
    requires m1 <= m2
    ensures BilledHours(m1) <= BilledHours(m2)
  {
    CeilHoursMonotone(m1, m2);
  }

  /** The hours billed between two timestamps. */
  function StayHours(entryTime: int, exitTime: int): (hours: int)
    ensures hours >= 1
  {
    BilledHours(WholeMinutes(entryTime, exitTime))
  }

  /** Any stay up to one hour and one minute (or an exit before the entry) bills one hour. */
  lemma ShortStayBillsOneHour(entryTime: int, exitTime: int)
    requires exitTime - entryTime < 61 * 60000
    ensures StayHours(entryTime, exitTime) == 1
  {
  }

  /** `calculateTotal`: hours times rate, plus the strategy's fine for those hours, plus the misuse surcharge. */
  function CalculateTotal(entryTime: int, exitTime: int, spotType: string, isReservedMisuse: bool,
                          isOku: bool, vehicleType: Option<string>, strategy: FineStrategy): (total: int)
    ensures total >= 0
    ensures isReservedMisuse ==> total >= MisuseSurcharge
    ensures total >= StayHours(entryTime, exitTime) * ResolveRate(spotType, vehicleType, isOku, PaymentUnknownRate)
    ensures total - StayHours(entryTime, exitTime) * ResolveRate(spotType, vehicleType, isOku, PaymentUnknownRate)
                  - (if isReservedMisuse then MisuseSurcharge else 0)
         == CalculateFine(strategy, StayHours(entryTime, exitTime))
  {
    var hours := StayHours(entryTime, exitTime);
    var rate := ResolveRate(spotType, vehicleType, isOku, PaymentUnknownRate);
    var parkingFee := hours * rate;
    assert parkingFee >= 0 by {
      assert hours >= 1 && rate >= 0;
    }
    var fineAmount := CalculateFine(strategy, hours) + (if isReservedMisuse then MisuseSurcharge else 0);
    parkingFee + fineAmount
  }

  /** Misuse adds exactly the surcharge and nothing else. */
  lemma MisuseAddsSurcharge(entryTime: int, exitTime: int, spotType: string, isOku: bool,
                            vehicleType: Option<string>, strategy: FineStrategy)
    ensures CalculateTotal(entryTime, exitTime, spotType, true, isOku, vehicleType, strategy)
         == CalculateTotal(entryTime, exitTime, spotType, false, isOku, vehicleType, strategy) + MisuseSurcharge
  {
  }

  /** Within the free 24 hours and without misuse the total is the parking fee alone, whatever the strategy. */
  lemma NoFineWithinFreeHours(entryTime: int, exitTime: int, spotType: string, isOku: bool,
                              vehicleType: Option<string>, strategy: FineStrategy)
    requires StayHours(entryTime, exitTime) <= 24
    ensures CalculateTotal(entryTime, exitTime, spotType, false, isOku, vehicleType, strategy)
         == StayHours(entryTime, exitTime) * ResolveRate(spotType, vehicleType, isOku, PaymentUnknownRate)
  {
  }

  /** Leaving later never costs less. */
  lemma TotalMonotoneInExit(entryTime: int, exit1: int, exit2: int, spotType: string, isReservedMisuse: bool,
                            isOku: bool, vehicleType: Option<string>, strategy: FineStrategy)
    requires exit1 <= exit2
    ensures CalculateTotal(entryTime, exit1, spotType, isReservedMisuse, isOku, vehicleType, strategy)
         <= CalculateTotal(entryTime, exit2, spotType, isReservedMisuse, isOku, vehicleType, strategy)
  {
    WholeMinutesMonotone(entryTime, exit1, exit2);
    BilledHoursMonotone(WholeMinutes(entryTime, exit1), WholeMinutes(entryTime, exit2));
    var h1, h2 := StayHours(entryTime, exit1), StayHours(entryTime, exit2);
    FineMonotone(strategy, h1, h2);
    var rate := ResolveRate(spotType, vehicleType, isOku, PaymentUnknownRate);
    assert h1 * rate <= h2 * rate;
  }

  /**
   * The two sample charges of `PaymentTest`: an OKU holder whose vehicle
   * type is given as "HANDICAPPED" stays two hours under the fixed scheme and
   * pays 4 RM, in a Compact spot and in a Handicapped spot alike.
   */
  lemma PaymentSamples(entryTime: int)
    ensures CalculateTotal(entryTime, entryTime + 2 * 3600000, "Compact", false, true, Some("HANDICAPPED"), FixedFine) == 4
    ensures CalculateTotal(entryTime, entryTime + 2 * 3600000, "Handicapped", false, true, Some("HANDICAPPED"), FixedFine) == 4
  {
    assert WholeMinutes(entryTime, entryTime + 2 * 3600000) == 120;
    FreeRuleNeedsFullLabel("Compact");
    FreeRuleNeedsFullLabel("Handicapped");
  }

  /** With the full label, the same holder in the Handicapped spot pays nothing. */
  lemma FreeStayForOkuHandicapped(entryTime: int)
    ensures CalculateTotal(entryTime, entryTime + 2 * 3600000, "Handicapped", false, true, Some("Handicapped Vehicle"), FixedFine) == 0
  {
    assert WholeMinutes(entryTime, entryTime + 2 * 3600000) == 120;
    assert EqualsIgnoreCase("Handicapped Vehicle", "Handicapped Vehicle");
    assert EqualsIgnoreCase("Handicapped", "Handicapped");
  }

  /**
   * An overstay: a car in a Compact spot for 26 hours under the fixed scheme
   * pays 26 hours at 2 RM and the 50 RM fine.
   */
  lemma OverstaySample(entryTime: int)
    ensures CalculateTotal(entryTime, entryTime + 26 * 3600000, "Compact", false, false, Some("Car"), FixedFine) == 102
  {
    assert WholeMinutes(entryTime, entryTime + 26 * 3600000) == 1560;
  }
}
