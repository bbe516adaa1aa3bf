/**
 * The overstay fine strategies (`Fine` and its three implementations). A
 * fine is charged only for stays above 24 hours; amounts are whole RM.
 */
module Fines {

  datatype FineStrategy = FixedFine | HourlyFine | ProgressiveFine

  /** The stay, in hours, up to which no fine is charged under any strategy. */
  const FreeHours: int := 24

  /** `calculateFine(hoursParked)` of each strategy. */
  function CalculateFine(strategy: FineStrategy, hoursParked: int): (fine: int)
    ensures fine >= 0
    ensures fine == 0 <==> hoursParked <= FreeHours
  {
    match strategy
    case FixedFine => if hoursParked > 24 then 50 else 0
    case HourlyFine => if hoursParked > 24 then (hoursParked - 24) * 20 else 0
    case ProgressiveFine =>
      (if hoursParked > 24 then 50 else 0)
      + (if hoursParked > 48 then 100 else 0)
      + (if hoursParked > 48 then 150 else 0)
      + (if hoursParked > 72 then 200 else 0)
  }

  /** The progressive scheme as a band table: 0, 50, 300 and 500 RM. */
  function ProgressiveBand(hoursParked: int): int {
    if hoursParked <= 24 then 0
    else if hoursParked <= 48 then 50
    else if hoursParked <= 72 then 300
    else 500
  }

  lemma ProgressiveMatchesBands(hoursParked: int)
    ensures CalculateFine(ProgressiveFine, hoursParked) == ProgressiveBand(hoursParked)
  {
  }

  /** The fixed fine is 0 or 50, with the step between 24 and 25 hours. */
  lemma FixedFineValues(hoursParked: int)
    ensures CalculateFine(FixedFine, hoursParked) in {0, 50}
    ensures CalculateFine(FixedFine, 24) == 0 && CalculateFine(FixedFine, 25) == 50
  {
  }

  /** The hourly fine charges 20 RM per hour past 24; three hours over costs 60 RM. */
  lemma HourlyFineValues(hoursParked: int)
    ensures hoursParked > 24 ==> CalculateFine(HourlyFine, hoursParked) == 20 * (hoursParked - 24)
    ensures CalculateFine(HourlyFine, 27) == 60
  {
  }

  /** The progressive fine takes four values, never exceeds 500, and is 500 at 80 hours. */
  lemma ProgressiveFineValues(hoursParked: int)
    ensures CalculateFine(ProgressiveFine, hoursParked) in {0, 50, 300, 500}
    ensures CalculateFine(ProgressiveFine, hoursParked) <= 500
    ensures CalculateFine(ProgressiveFine, 48) == 50 && CalculateFine(ProgressiveFine, 49) == 300
    ensures CalculateFine(ProgressiveFine, 72) == 300 && CalculateFine(ProgressiveFine, 80) == 500
  {
  }

  /** A longer stay is never fined less, under every strategy. */
  lemma FineMonotone(strategy: FineStrategy, h1: int, h2: int)
    requires h1 <= h2
    ensures CalculateFine(strategy, h1) <= CalculateFine(strategy, h2)
  {
  }

  /** Past the free period the hourly fine grows with every extra hour. */
  lemma HourlyStrictlyIncreasing(h1: int, h2: int)
    requires 24 < h1 < h2
    ensures CalculateFine(HourlyFine, h1) < CalculateFine(HourlyFine, h2)
  {
  }
}
