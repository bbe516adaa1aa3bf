/**
 * Vehicle classes (`Vehicle` and its four subclasses), `VehicleFactory`,
 * the per-class `canParkIn` tables and the stay-length rule of
 * `Vehicle.calculateDuration`. Clock readings are explicit millisecond
 * timestamps.
 */
module Vehicles {
  import opened Wrappers
  import opened Text
  import opened SpotTypes

  datatype VehicleClass = Motorcycle | Car | Suv | HandicappedVehicle

  /**
   * A vehicle: plate, class and entry time never change; `exitTime` is
   * `None` until `markExit`.
   */
  datatype Vehicle = Vehicle(licensePlate: string, vclass: VehicleClass, entryTime: int, exitTime: Option<int>)

  /** The constructor of every subclass: the entry time is the clock reading `now`. */
  function NewVehicle(licensePlate: string, vclass: VehicleClass, now: int): (v: Vehicle)
    ensures v.exitTime.None?
  {
    Vehicle(licensePlate, vclass, now, None)
  }

  // ---------------------------------------------------------------------------
  // VehicleFactory
  // ---------------------------------------------------------------------------

  /** The selector label `VehicleFactory` maps to each class. */
  function FactoryName(c: VehicleClass): string {
    match c
    case Motorcycle => "Motorcycle"
    case Car => "Car"
    case Suv => "SUV/Truck"
    case HandicappedVehicle => "Handicapped Vehicle"
  }

  const FactoryNames: seq<string> := ["Motorcycle", "Car", "SUV/Truck", "Handicapped Vehicle"]

  /** `VehicleFactory.fromDisplayType`: exact, case-sensitive; `null` and unknown labels give `null`. */
  function FromDisplayType(vehicleType: Option<string>, licensePlate: string, now: int): (r: Option<Vehicle>)
    ensures r.Some? <==> vehicleType.Some? && vehicleType.value in FactoryNames
    ensures r.Some? ==> FactoryName(r.value.vclass) == vehicleType.value
    ensures r.Some? ==> r.value == NewVehicle(licensePlate, r.value.vclass, now)
  {
    match vehicleType
    case None => None
    case Some(t) =>
      if t == "Motorcycle" then Some(NewVehicle(licensePlate, Motorcycle, now))
      else if t == "Car" then Some(NewVehicle(licensePlate, Car, now))
      else if t == "SUV/Truck" then Some(NewVehicle(licensePlate, Suv, now))
      else if t == "Handicapped Vehicle" then Some(NewVehicle(licensePlate, HandicappedVehicle, now))
      else None
  }

  /** Each class is produced by its own label, carrying the plate unchanged. */
  lemma FactoryRoundTrip(c: VehicleClass, licensePlate: string, now: int)
    ensures FromDisplayType(Some(FactoryName(c)), licensePlate, now) == Some(NewVehicle(licensePlate, c, now))
  {
  }

  /** Near-miss spellings are rejected. */
  lemma FactoryRejectsOtherSpellings(licensePlate: string, now: int)
    ensures FromDisplayType(Some("SUV"), licensePlate, now).None?
    ensures FromDisplayType(Some("HANDICAPPED"), licensePlate, now).None?
    ensures FromDisplayType(Some("car"), licensePlate, now).None?
  {
  }

  // ---------------------------------------------------------------------------
  // canParkIn
  // ---------------------------------------------------------------------------

  /**
   * `canParkIn(spot)` of each subclass, on the spot's type string: exact,
   * case-sensitive comparisons; the handicapped class accepts every spot
   * without looking at it.
   */
  function CanParkIn(c: VehicleClass, spotType: string): bool {
    match c
    case Motorcycle => spotType == "Compact" || spotType == "Reserved"
    case Car => spotType == "Compact" || spotType == "Regular" || spotType == "Reserved"
    case Suv => spotType == "Regular" || spotType == "Reserved"
    case HandicappedVehicle => true
  }

  /** The class-level table, before any VIP rule: which spot classes each vehicle class accepts. */
  function ClassAccepts(c: VehicleClass, k: SpotType): bool {
    match c
    case Motorcycle => k in {SpotType.Compact, SpotType.Reserved}
    case Car => k in {SpotType.Compact, SpotType.Regular, SpotType.Reserved}
    case Suv => k in {SpotType.Regular, SpotType.Reserved}
    case HandicappedVehicle => true
  }

  /** A handicapped vehicle accepts any spot, whatever its type string. */
  lemma HandicappedParksAnywhere()
    ensures forall spotType :: CanParkIn(HandicappedVehicle, spotType)
  {
  }

  /** On the four display names `canParkIn` is exactly the class-level table. */
  lemma CanParkInMatchesTable(c: VehicleClass, k: SpotType)
    ensures CanParkIn(c, DisplayName(k)) == ClassAccepts(c, k)
  {
  }

  /** Only the exact display names are accepted by the three restricted classes. */
  lemma CanParkInOnlyKnownNames(c: VehicleClass, spotType: string)
    requires c != HandicappedVehicle
    requires CanParkIn(c, spotType)
    ensures FromDisplayName(Some(spotType)).Some?
  {
  }

  // ---------------------------------------------------------------------------
  // Duration
  // ---------------------------------------------------------------------------

  /**
   * `Duration.between(from, to).toMinutes()` for millisecond timestamps: whole
   * seconds are floored, then divided by 60 with Java's truncation toward zero.
   */
  function WholeMinutes(from: int, to: int): (m: int)
    ensures from <= to ==> 60000 * m <= to - from < 60000 * m + 60000
  {
    TruncDiv((to - from) / 1000, 60)
  }

  /** A later end never gives fewer whole minutes. */
  lemma WholeMinutesMonotone(from: int, to1: int, to2: int)
    requires to1 <= to2
    ensures WholeMinutes(from, to1) <= WholeMinutes(from, to2)
  {
    var s1, s2 := (to1 - from) / 1000, (to2 - from) / 1000;
    assert s1 <= s2 by {
      assert 1000 * s1 <= to1 - from < 1000 * s2 + 1000;
    }
    var m1, m2 := TruncDiv(s1, 60), TruncDiv(s2, 60);
    if s1 >= 0 {
      assert 60 * m1 <= s1 <= s2 < 60 * m2 + 60;
    } else if s2 < 0 {
      assert 60 * m1 - 60 < s1 <= s2 <= 60 * m2;
    } else {
      assert m1 <= 0 <= m2;
    }
  }

  /** `(long) Math.ceil(minutes / 60.0)`: the least whole number of hours covering `minutes`. */
  function CeilHours(minutes: int): (h: int)
    ensures 60 * (h - 1) < minutes <= 60 * h
  {
    CeilDiv(minutes, 60)
  }

  lemma CeilHoursMonotone(m1: int, m2: int)
    requires m1 <= m2
    ensures CeilHours(m1) <= CeilHours(m2)
  {
  }

  /** `calculateDuration`: the stay in whole hours, measured to `now` before exit and to the exit time after. */
  function CalculateDuration(v: Vehicle, now: int): (h: int)
    ensures v.exitTime.None? ==> 60 * (h - 1) < WholeMinutes(v.entryTime, now) <= 60 * h
    ensures v.exitTime.Some? ==> 60 * (h - 1) < WholeMinutes(v.entryTime, v.exitTime.value) <= 60 * h
  {
    match v.exitTime
    case None => CeilHours(WholeMinutes(v.entryTime, now))
    case Some(t) => CeilHours(WholeMinutes(v.entryTime, t))
  }

  /** `markExit`: records the clock reading as the exit time; nothing else changes. */
  function MarkExit(v: Vehicle, now: int): (r: Vehicle)
    ensures r.licensePlate == v.licensePlate && r.vclass == v.vclass && r.entryTime == v.entryTime
    ensures r.exitTime == Some(now)
  {
    v.(exitTime := Some(now))
  }

  /** After `markExit` the duration no longer depends on the clock. */
  lemma DurationFixedAfterExit(v: Vehicle, exitAt: int, now1: int, now2: int)
    ensures CalculateDuration(MarkExit(v, exitAt), now1) == CalculateDuration(MarkExit(v, exitAt), now2)
  {
  }

  /** Minutes round up to hours: 61 minutes is 2 hours, 60k minutes is k hours, and 0 minutes is 0 hours. */
  lemma CeilHoursExamples(k: int)
    ensures CeilHours(61) == 2
    ensures CeilHours(60 * k) == k
    ensures CeilHours(0) == 0
  {
  }
}
