/**
 * The car park (`ParkingLot`) as an explicit value: its floors, the default
 * 5-floor layout, lookups by id, by type and by floor, and the allocation
 * rule `isSpotAllowed` that puts the VIP restriction on top of `canParkIn`.
 */
module Lots {
  import opened Wrappers
  import opened Text
  import opened SpotTypes
  import opened SpotIds
  import opened Vehicles
  import opened Spots

  datatype Lot = Lot(floors: seq<Floor>)

  /** Every spot of the lot, floor by floor, each floor in insertion order. */
  function AllSpots(floors: seq<Floor>): seq<Spot>
    decreases |floors|
  {
    if |floors| == 0 then [] else floors[0].spots + AllSpots(floors[1..])
  }

  lemma {:induction false} AllSpotsConcat(a: seq<Floor>, b: seq<Floor>)
    ensures AllSpots(a + b) == AllSpots(a) + AllSpots(b)
    decreases |a|
  {
    if |a| == 0 {
      assert a + b == b;
    } else {
      assert (a + b)[0] == a[0];
      assert (a + b)[1..] == a[1..] + b;
      AllSpotsConcat(a[1..], b);
    }
  }

  /** `getTotalSpotCount`: the spot counts of all floors added up. */
  method GetTotalSpotCount(lot: Lot) returns (total: int)
    ensures total == |AllSpots(lot.floors)|
  {
    total := 0;
    var i := 0;
    while i < |lot.floors|
      invariant 0 <= i <= |lot.floors|
      invariant total == |AllSpots(lot.floors[..i])|
    {
      AllSpotsConcat(lot.floors[..i], [lot.floors[i]]);
      assert lot.floors[..i + 1] == lot.floors[..i] + [lot.floors[i]];
      assert AllSpots([lot.floors[i]]) == lot.floors[i].spots;
      total := total + |lot.floors[i].spots|;
      i := i + 1;
    }
    assert lot.floors[..i] == lot.floors;
  }

  // ---------------------------------------------------------------------------
  // Searches
  // ---------------------------------------------------------------------------

  /** The two spot searches of `ParkingLot`: exact id, or type up to letter case. */
  datatype SpotQuery = ById(spotId: string) | ByType(typeName: string)

  predicate Matches(q: SpotQuery, s: Spot) {
    match q
    case ById(id) => s.spotId == id
    case ByType(t) => EqualsIgnoreCase(s.TypeName(), t)
  }

  /** The position of the first spot the query matches. */
  function FirstMatch(spots: seq<Spot>, q: SpotQuery): (r: Option<nat>)
    ensures r.Some? ==> r.value < |spots| && Matches(q, spots[r.value])
    ensures r.Some? ==> forall j :: 0 <= j < r.value ==> !Matches(q, spots[j])
    ensures r.None? ==> forall j :: 0 <= j < |spots| ==> !Matches(q, spots[j])
    decreases |spots|
  {
    if |spots| == 0 then None
    else if Matches(q, spots[0]) then Some(0)
    else match FirstMatch(spots[1..], q)
      case None => None
      case Some(k) => Some(k + 1)
  }

  /** A matching position with no match before it is the one `FirstMatch` finds. */
  lemma FirstMatchAt(spots: seq<Spot>, q: SpotQuery, k: nat)
    requires k < |spots| && Matches(q, spots[k])
    requires forall j :: 0 <= j < k ==> !Matches(q, spots[j])
    ensures FirstMatch(spots, q) == Some(k)
  {
  }

  /** Position `k` matches the query and no position before it does. */
  predicate FirstMatchedAt(spots: seq<Spot>, q: SpotQuery, k: int) {
    0 <= k < |spots| && Matches(q, spots[k])
    && forall j :: 0 <= j < k ==> !Matches(q, spots[j])
  }

  /** The lot's spots are scanned floor by floor, each floor in order, and the first match is returned. */
  function Find(lot: Lot, q: SpotQuery): (r: Option<Spot>)
    ensures r.Some? ==> Matches(q, r.value) && r.value in AllSpots(lot.floors)
    ensures r.None? <==> forall s :: s in AllSpots(lot.floors) ==> !Matches(q, s)
    ensures forall k :: FirstMatchedAt(AllSpots(lot.floors), q, k) ==> r == Some(AllSpots(lot.floors)[k])
  {
    var spots := AllSpots(lot.floors);
    match FirstMatch(spots, q)
    case None => None
    case Some(k) =>
      assert forall k2 :: FirstMatchedAt(spots, q, k2) ==> k2 == k by {
        forall k2 | FirstMatchedAt(spots, q, k2) ensures k2 == k {
          FirstMatchedAtUnique(spots, q, k, k2);
        }
      }
      Some(spots[k])
  }

  /** At most one position is the first match. */
  lemma FirstMatchedAtUnique(spots: seq<Spot>, q: SpotQuery, k1: int, k2: int)
    requires FirstMatchedAt(spots, q, k1) && FirstMatchedAt(spots, q, k2)
    ensures k1 == k2
  {
  }

  /** `getSpotById`: the first spot, floor by floor, whose id equals `spotId` exactly. */
  function GetSpotById(lot: Lot, spotId: string): (r: Option<Spot>)
    ensures r.Some? ==> r.value.spotId == spotId && r.value in AllSpots(lot.floors)
    ensures r.None? <==> forall s :: s in AllSpots(lot.floors) ==> s.spotId != spotId
    ensures forall k :: FirstMatchedAt(AllSpots(lot.floors), ById(spotId), k) ==> r == Some(AllSpots(lot.floors)[k])
  {
    Find(lot, ById(spotId))
  }

  /** `getSpotByUiId`: a UI id is first turned into the internal form, then looked up. */
  function GetSpotByUiId(lot: Lot, uiSpotId: string): (r: Option<Spot>)
    ensures r == GetSpotById(lot, ToInternalSpotId(uiSpotId))
    ensures r.Some? ==> r.value.spotId == ToInternalSpotId(uiSpotId) && r.value in AllSpots(lot.floors)
    ensures r.None? <==> forall s :: s in AllSpots(lot.floors) ==> s.spotId != ToInternalSpotId(uiSpotId)
  {
    GetSpotById(lot, ToInternalSpotId(uiSpotId))
  }

  /** `getSampleSpotByType`: the first spot whose type equals `typeName` up to letter case. */
  function GetSampleSpotByType(lot: Lot, typeName: string): (r: Option<Spot>)
    ensures r.Some? ==> EqualsIgnoreCase(r.value.TypeName(), typeName) && r.value in AllSpots(lot.floors)
    ensures r.None? <==> forall s :: s in AllSpots(lot.floors) ==> !EqualsIgnoreCase(s.TypeName(), typeName)
    ensures forall k :: FirstMatchedAt(AllSpots(lot.floors), ByType(typeName), k) ==> r == Some(AllSpots(lot.floors)[k])
  {
    Find(lot, ByType(typeName))
  }

  /** Floor `k` is named `target` (up to letter case) and no floor before it is. */
  predicate FirstNamedAt(floors: seq<Floor>, target: string, k: int) {
    0 <= k < |floors| && EqualsIgnoreCase(target, floors[k].floorId)
    && forall j :: 0 <= j < k ==> !EqualsIgnoreCase(target, floors[j].floorId)
  }

  /** The position of the first floor whose id equals `target` up to letter case. */
  function FirstFloorNamed(floors: seq<Floor>, target: string): (r: Option<nat>)
    ensures r.Some? ==> FirstNamedAt(floors, target, r.value)
    ensures r.None? ==> forall j :: 0 <= j < |floors| ==> !EqualsIgnoreCase(target, floors[j].floorId)
    decreases |floors|
  {
    if |floors| == 0 then None
    else if EqualsIgnoreCase(target, floors[0].floorId) then Some(0)
    else match FirstFloorNamed(floors[1..], target)
      case None => None
      case Some(k) => Some(k + 1)
  }

  /** At most one floor is the first one carrying a name. */
  lemma FirstNamedAtUnique(floors: seq<Floor>, target: string, k1: int, k2: int)
    requires FirstNamedAt(floors, target, k1) && FirstNamedAt(floors, target, k2)
    ensures k1 == k2
  {
  }

  function FloorName(n: int): string {
    "Floor " + IntToString(n)
  }

  /** `getSpotsForFloor`: the spots of the first floor named `"Floor n"` (any case), else none. */
  function GetSpotsForFloor(lot: Lot, n: int): (r: seq<Spot>)
    ensures (forall j :: 0 <= j < |lot.floors| ==> !EqualsIgnoreCase(FloorName(n), lot.floors[j].floorId)) ==> r == []
    ensures forall k :: FirstNamedAt(lot.floors, FloorName(n), k) ==> r == lot.floors[k].spots
  {
    match FirstFloorNamed(lot.floors, FloorName(n))
    case None => []
    case Some(k) =>
      assert forall k2 :: FirstNamedAt(lot.floors, FloorName(n), k2) ==> k2 == k by {
        forall k2 | FirstNamedAt(lot.floors, FloorName(n), k2) ensures k2 == k {
          FirstNamedAtUnique(lot.floors, FloorName(n), k, k2);
        }
      }
      lot.floors[k].spots
  }

  // ---------------------------------------------------------------------------
  // Allocation rule
  // ---------------------------------------------------------------------------

  /** Only the Reserved display name equals `"Reserved"` up to letter case. */
  lemma ReservedSpelling(k: SpotType)
    ensures EqualsIgnoreCase("Reserved", DisplayName(k)) <==> k == Reserved
  {
    if k == Compact || k == Regular || k == Handicapped {
      assert |DisplayName(k)| != 8;
    }
  }

  /**
   * `isSpotAllowed`: `null` on either side refuses; a Reserved spot further
   * needs a VIP and a vehicle other than a motorcycle; then `canParkIn` decides.
   */
  function IsSpotAllowed(vehicle: Option<Vehicle>, spot: Option<Spot>, isVip: bool): (r: bool)
    ensures r <==> (vehicle.Some? && spot.Some?
                    && (spot.value.kind == Reserved ==> isVip && vehicle.value.vclass != Motorcycle)
                    && CanParkIn(vehicle.value.vclass, spot.value.TypeName()))
  {
    match (vehicle, spot)
    case (Some(v), Some(s)) =>
      ReservedSpelling(s.kind);
      if EqualsIgnoreCase("Reserved", s.TypeName()) && (!isVip || v.vclass == Motorcycle) then false
      else CanParkIn(v.vclass, s.TypeName())
    case _ => false
  }

  /** The allocation table, written out class by class. */
  function Allowed(c: VehicleClass, k: SpotType, isVip: bool): bool {
    match c
    case Motorcycle => k == Compact
    case Car => k == Compact || k == Regular || (k == Reserved && isVip)
    case Suv => k == Regular || (k == Reserved && isVip)
    case HandicappedVehicle => k != Reserved || isVip
  }

  lemma IsSpotAllowedTable(v: Vehicle, s: Spot, isVip: bool)
    ensures IsSpotAllowed(Some(v), Some(s), isVip) == Allowed(v.vclass, s.kind, isVip)
  {
  }

  /** `park` itself does not apply the VIP rule: a non-VIP car is refused by `isSpotAllowed` but parks. */
  lemma ParkIgnoresVipRule(v: Vehicle, s: Spot)
    requires v.vclass == Car && s.kind == Reserved && !s.occupied
    ensures Park(s, v).parked
    ensures !IsSpotAllowed(Some(v), Some(s), false)
  {
  }

  /** A motorcycle may enter a Reserved spot through `park`, but never through `isSpotAllowed`. */
  lemma MotorcycleNeverReserved(v: Vehicle, s: Spot, isVip: bool)
    requires v.vclass == Motorcycle && s.kind == Reserved
    ensures CanParkIn(v.vclass, s.TypeName())
    ensures !IsSpotAllowed(Some(v), Some(s), isVip)
  {
  }

  /** Whether `getAllowedSpotTypes` lists `typeName`: a sample spot of that type exists and is allowed. */
  predicate Admits(lot: Lot, typeName: string, vehicle: Option<Vehicle>, isVip: bool) {
    match GetSampleSpotByType(lot, typeName)
    case None => false
    case Some(sample) => IsSpotAllowed(vehicle, Some(sample), isVip)
  }

  /** Position of a display name in the fixed order Compact, Regular, Handicapped, Reserved. */
  function Rank(t: string): nat {
    if t == "Compact" then 0 else if t == "Regular" then 1 else if t == "Handicapped" then 2 else 3
  }

  predicate RankSorted(names: seq<string>) {
    forall i, j :: 0 <= i < j < |names| ==> Rank(names[i]) < Rank(names[j])
  }

  lemma InDisplayNames()
    ensures forall t :: t in DisplayNames <==> t == "Compact" || t == "Regular" || t == "Handicapped" || t == "Reserved"
  {
  }

  /** `[name]` when the flag is set, otherwise nothing. */
  function KeepIf(flag: bool, name: string): seq<string> {
    if flag then [name] else []
  }

  /** The display names whose flag is set, in the fixed order: the loop over the four types, unrolled. */
  function SelectNames(compact: bool, regular: bool, handicapped: bool, reserved: bool): (r: seq<string>)
    ensures forall t :: t in r <==> ((t == "Compact" && compact) || (t == "Regular" && regular)
                                    || (t == "Handicapped" && handicapped) || (t == "Reserved" && reserved))
    ensures RankSorted(r)
    ensures !compact && !regular && !handicapped && !reserved ==> r == []
  {
    KeepIf(compact, "Compact") + (KeepIf(regular, "Regular") + (KeepIf(handicapped, "Handicapped") + KeepIf(reserved, "Reserved")))
  }

  /** `getAllowedSpotTypes`: the display names, in their fixed order, whose sample spot is allowed. */
  function GetAllowedSpotTypes(lot: Lot, vehicle: Option<Vehicle>, isVip: bool): (r: seq<string>)
    ensures forall t :: t in r <==> t in DisplayNames && Admits(lot, t, vehicle, isVip)
    ensures RankSorted(r)
    ensures vehicle.None? ==> r == []
  {
    InDisplayNames();
    SelectNames(Admits(lot, "Compact", vehicle, isVip), Admits(lot, "Regular", vehicle, isVip),
                Admits(lot, "Handicapped", vehicle, isVip), Admits(lot, "Reserved", vehicle, isVip))
  }

  // ---------------------------------------------------------------------------
  // Default layout
  // ---------------------------------------------------------------------------

  /** `createSpotForLocation`'s class choice, from floor, row and position within the row. */
  function LayoutKind(floor: int, row: int, posInRow: int): SpotType {
    if floor <= 3 then
      if row == 1 then (if posInRow <= 5 then Reserved else Handicapped)
      else if row == 2 then Compact
      else Regular
    else
      if row == 1 then Reserved
      else if row == 2 then Compact
      else Regular
  }

  /**
   * The layout as listed by spot number 1..30: S01-S05 Reserved, S06-S10
   * Handicapped on floors 1-3 and Reserved above, S11-S20 Compact, S21-S30 Regular.
   */
  function KindOfSpotNumber(floor: int, spotNumber: int): SpotType {
    if spotNumber <= 5 then Reserved
    else if spotNumber <= 10 then (if floor <= 3 then Handicapped else Reserved)
    else if spotNumber <= 20 then Compact
    else Regular
  }

  /** Numbering spots 1..30 row by row gives the by-number layout. */
  lemma LayoutByNumber(floor: int, spotNumber: int)
    requires 1 <= spotNumber <= 30
    ensures LayoutKind(floor, (spotNumber - 1) / 10 + 1, (spotNumber - 1) % 10 + 1) == KindOfSpotNumber(floor, spotNumber)
  {
  }

  /** `createSpotForLocation`: a vacant spot of the layout's class with id `formatSpotId(floor, row, spotNumber)`. */
  function CreateSpotForLocation(floor: nat, row: nat, posInRow: nat, spotNumber: nat): (s: Spot)
    ensures s.spotId == FormatSpotId(floor, row, spotNumber)
    ensures !s.occupied && s.occupant.None? && s.hourlyRate == ClassRate(s.kind)
    ensures s.kind == Handicapped <==> floor <= 3 && row == 1 && posInRow > 5
    ensures s.kind == Reserved <==> row == 1 && (floor > 3 || posInRow <= 5)
    ensures s.kind == Compact <==> row == 2
  {
    NewSpotAt(LayoutKind(floor, row, posInRow), floor, row, spotNumber)
  }

  /** The `j`-th spot (from 0) the default layout creates on floor `f`: row `j / 10 + 1`, place `j % 10 + 1`, number `j + 1`. */
  function DefaultSpot(f: nat, j: nat): Spot
    requires j < 30
  {
    CreateSpotForLocation(f, j / 10 + 1, j % 10 + 1, j + 1)
  }

  /** Floor `f` of the default layout: 30 spots numbered 1..30, ten to a row. */
  function DefaultFloor(f: nat): (fl: Floor)
    ensures fl.floorId == FloorName(f) && |fl.spots| == 30
    ensures forall j :: 0 <= j < 30 ==> fl.spots[j] == DefaultSpot(f, j)
  {
    Floor(FloorName(f), seq(30, j requires 0 <= j < 30 => DefaultSpot(f, j)))
  }

  /** The `j`-th default spot is vacant, has id `F<f>-R<row>-S<j+1>`, and the class the by-number layout gives. */
  lemma DefaultSpotFacts(f: nat, j: nat)
    requires j < 30
    ensures DefaultSpot(f, j).spotId == FormatSpotId(f, j / 10 + 1, j + 1) && !DefaultSpot(f, j).occupied
    ensures DefaultSpot(f, j).kind == KindOfSpotNumber(f, j + 1)
  {
    LayoutByNumber(f, j + 1);
  }

  lemma DefaultFloorKinds(f: nat)
    ensures forall j :: 0 <= j < 30 ==> DefaultFloor(f).spots[j].kind == KindOfSpotNumber(f, j + 1)
    ensures forall j :: 0 <= j < 30 ==> DefaultFloor(f).spots[j].spotId == FormatSpotId(f, j / 10 + 1, j + 1)
    ensures forall j :: 0 <= j < 30 ==> !DefaultFloor(f).spots[j].occupied
  {
    forall j | 0 <= j < 30
      ensures DefaultFloor(f).spots[j].kind == KindOfSpotNumber(f, j + 1)
      ensures DefaultFloor(f).spots[j].spotId == FormatSpotId(f, j / 10 + 1, j + 1)
      ensures !DefaultFloor(f).spots[j].occupied
    {
      DefaultSpotFacts(f, j);
    }
  }

  const DefaultFloors: seq<Floor> := [DefaultFloor(1), DefaultFloor(2), DefaultFloor(3), DefaultFloor(4), DefaultFloor(5)]

  /** `initializeDefaultStructure`: the existing floors are dropped and floors 1..5 built afresh. */
  function InitializeDefaultStructure(lot: Lot): (r: Lot)
    ensures |r.floors| == 5
    ensures forall i :: 0 <= i < 5 ==> r.floors[i].floorId == FloorName(i + 1) && |r.floors[i].spots| == 30
    ensures forall i :: 0 <= i < 5 ==> r.floors[i] == DefaultFloor(i + 1)
  {
    DefaultFloorsListed();
    Lot(DefaultFloors)
  }

  /** The layout does not depend on what was there before, so initialising twice is initialising once. */
  lemma InitializeIdempotent(lot: Lot, other: Lot)
    ensures InitializeDefaultStructure(InitializeDefaultStructure(lot)) == InitializeDefaultStructure(lot)
    ensures InitializeDefaultStructure(lot) == InitializeDefaultStructure(other)
  {
  }

  /** Floors of equal size laid end to end: spot `j` of floor `i` sits at `30 * i + j`. */
  lemma {:induction false} AllSpotsUniform(floors: seq<Floor>, i: nat, j: nat)
    requires forall k :: 0 <= k < |floors| ==> |floors[k].spots| == 30
    requires i < |floors| && j < 30
    ensures |AllSpots(floors)| == 30 * |floors|
    ensures AllSpots(floors)[30 * i + j] == floors[i].spots[j]
    decreases |floors|
  {
    if i == 0 {
      if |floors| > 1 {
        AllSpotsUniform(floors[1..], 0, j);
      }
    } else {
      AllSpotsUniform(floors[1..], i - 1, j);
    }
  }

  /** The default lot holds 150 spots. */
  lemma DefaultSpotCount()
    ensures |AllSpots(InitializeDefaultStructure(Lot([])).floors)| == 150
  {
    DefaultFloorsListed();
    AllSpotsUniform(DefaultFloors, 0, 0);
  }

  /** Floor `k` of the default lot (from 0) is `DefaultFloor(k + 1)`, of 30 spots. */
  lemma DefaultFloorsListed()
    ensures |DefaultFloors| == 5
    ensures forall k :: 0 <= k < 5 ==> DefaultFloors[k] == DefaultFloor(k + 1) && |DefaultFloors[k].spots| == 30
  {
  }

  /** The position of each default spot in the lot's flattened list. */
  lemma DefaultSpotAt(f: nat, j: nat)
    requires 1 <= f <= 5 && j < 30
    ensures 30 * (f - 1) + j < |AllSpots(DefaultFloors)|
    ensures AllSpots(DefaultFloors)[30 * (f - 1) + j] == DefaultFloor(f).spots[j]
  {
    DefaultFloorsListed();
    LayoutSpotAt(DefaultFloors, f, j);
  }

  /** `DefaultSpotAt` for any list of floors laid out as the default one. */
  lemma LayoutSpotAt(floors: seq<Floor>, f: nat, j: nat)
    requires |floors| == 5 && forall k :: 0 <= k < 5 ==> floors[k] == DefaultFloor(k + 1)
    requires 1 <= f <= 5 && j < 30
    ensures 30 * (f - 1) + j < |AllSpots(floors)|
    ensures AllSpots(floors)[30 * (f - 1) + j] == DefaultFloor(f).spots[j]
  {
    assert forall k :: 0 <= k < |floors| ==> |floors[k].spots| == 30;
    AllSpotsUniform(floors, f - 1, j);
  }

  /** Which floor and which spot of it the `m`-th spot of the default lot is. */
  lemma DefaultPosition(m: nat) returns (f: nat, j: nat)
    requires m < 150
    ensures 1 <= f <= 5 && j < 30 && m == 30 * (f - 1) + j
    ensures AllSpots(DefaultFloors)[m] == DefaultFloor(f).spots[j]
  {
    f := m / 30 + 1;
    j := m % 30;
    DefaultSpotAt(f, j);
  }

  /** Distinct positions of the default layout carry distinct ids. */
  lemma DefaultIdsDistinct(f: nat, j: nat, f': nat, j': nat)
    requires 1 <= f <= 5 && j < 30 && 1 <= f' <= 5 && j' < 30
    requires (f, j) != (f', j')
    ensures DefaultFloor(f).spots[j].spotId != DefaultFloor(f').spots[j'].spotId
  {
    ParseFormatSpotId(f, j / 10 + 1, j + 1, None);
    ParseFormatSpotId(f', j' / 10 + 1, j' + 1, None);
  }

  /** A floor name matches the name of floor 1..9, up to letter case, only when the numbers agree. */
  lemma FloorNameMatches(n: int, m: nat)
    requires 1 <= m < 10
    ensures EqualsIgnoreCase(FloorName(n), FloorName(m)) <==> n == m
  {
    OneDigit(m);
    if EqualsIgnoreCase(FloorName(n), FloorName(m)) {
      assert |IntToString(n)| == 1;
      assert 0 <= n < 10;
      OneDigit(n);
      assert ToLowerChar(FloorName(n)[6]) == ToLowerChar(FloorName(m)[6]);
    }
  }

  /**
   * In the default lot `getSpotsForFloor(n)` gives floor n's 30 spots for
   * n in 1..5, and nothing for any other number.
   */
  lemma DefaultFloorSpots(n: int)
    ensures 1 <= n <= 5 ==> GetSpotsForFloor(Lot(DefaultFloors), n) == DefaultFloor(n).spots
    ensures !(1 <= n <= 5) ==> GetSpotsForFloor(Lot(DefaultFloors), n) == []
  {
    DefaultFloorsListed();
    forall j | 0 <= j < 5
      ensures EqualsIgnoreCase(FloorName(n), DefaultFloors[j].floorId) <==> n == j + 1
    {
      FloorNameMatches(n, j + 1);
    }
    if 1 <= n <= 5 {
      assert FirstNamedAt(DefaultFloors, FloorName(n), n - 1);
    }
  }

  /** No default spot before floor `f`'s spot `j` carries its id. */
  lemma DefaultIdsBefore(f: nat, j: nat)
    requires 1 <= f <= 5 && j < 30
    ensures forall m :: 0 <= m < 30 * (f - 1) + j ==> !Matches(ById(DefaultFloor(f).spots[j].spotId), AllSpots(DefaultFloors)[m])
  {
    DefaultSpotCount();
    forall m | 0 <= m < 30 * (f - 1) + j
      ensures !Matches(ById(DefaultFloor(f).spots[j].spotId), AllSpots(DefaultFloors)[m])
    {
      var f', j' := DefaultPosition(m);
      DefaultIdsDistinct(f, j, f', j');
    }
  }

  /** Floor `f`'s spot `j` is the first default spot carrying its id. */
  lemma DefaultIdFirstAt(f: nat, j: nat)
    requires 1 <= f <= 5 && j < 30
    ensures FirstMatchedAt(AllSpots(DefaultFloors), ById(FormatSpotId(f, j / 10 + 1, j + 1)), 30 * (f - 1) + j)
  {
    DefaultSpotAt(f, j);
    DefaultSpotFacts(f, j);
    assert DefaultFloor(f).spots[j].spotId == FormatSpotId(f, j / 10 + 1, j + 1);
    DefaultIdsBefore(f, j);
  }

  /** Every spot of the default lot is found under its own id, since no two default ids coincide. */
  lemma DefaultLookup(f: nat, j: nat)
    requires 1 <= f <= 5 && j < 30
    ensures GetSpotById(Lot(DefaultFloors), FormatSpotId(f, j / 10 + 1, j + 1)) == Some(DefaultFloor(f).spots[j])
  {
    DefaultSpotAt(f, j);
    DefaultIdFirstAt(f, j);
  }

  /** Looking a default spot up by its UI id finds it too. */
  lemma DefaultLookupByUiId(f: nat, j: nat)
    requires 1 <= f <= 5 && j < 30
    ensures GetSpotByUiId(Lot(DefaultFloors), ToUiSpotId(DefaultFloor(f).spots[j].spotId, DefaultFloor(f).spots[j].TypeName()))
         == Some(DefaultFloor(f).spots[j])
  {
    var s := DefaultFloor(f).spots[j];
    DisplayNameIsWord(s.kind);
    SpotIdRoundTrip(f, j / 10 + 1, j + 1, s.TypeName());
    DefaultLookup(f, j);
  }

  /** Every display name is a non-empty run of ASCII letters, so it fits the UI id pattern. */
  lemma DisplayNameIsWord(k: SpotType)
    ensures |DisplayName(k)| > 0 && AllInClass(DisplayName(k), Letters)
  {
  }

  /** The spots `StructureVerifier` audits have the layout's types (floor 1 mixed, floor 4 VIP-heavy). */
  lemma StructureAudit()
    ensures DefaultFloor(1).spots[0].kind == Reserved && DefaultFloor(1).spots[4].kind == Reserved
    ensures DefaultFloor(1).spots[5].kind == Handicapped
    ensures DefaultFloor(1).spots[10].kind == Compact && DefaultFloor(1).spots[13].kind == Compact
    ensures DefaultFloor(1).spots[26].kind == Regular
    ensures DefaultFloor(4).spots[0].kind == Reserved && DefaultFloor(4).spots[5].kind == Reserved
    ensures DefaultFloor(4).spots[10].kind == Compact
  {
    DefaultFloorKinds(1);
    DefaultFloorKinds(4);
  }
}
