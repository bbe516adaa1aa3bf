/**
 * Parking spots (`ParkingSpot` and its four subclasses) with their
 * occupancy state machine, and floors (`Floor`).
 */
module Spots {
  import opened Wrappers
  import opened SpotTypes
  import opened SpotIds
  import opened Vehicles

  /**
   * A spot: id, class and hourly rate are fixed at construction; `occupied`
   * and `occupant` change through `Park` and `RemoveVehicle`.
   */
  datatype Spot = Spot(spotId: string, kind: SpotType, hourlyRate: int, occupied: bool, occupant: Option<Vehicle>) {
    /** `getType()`: the class's display name. */
    function TypeName(): string {
      DisplayName(kind)
    }
  }

  /** The hourly rate each subclass passes to the `ParkingSpot` constructor, in whole RM. */
  function ClassRate(k: SpotType): int {
    match k
    case Compact => 2
    case Regular => 5
    case Handicapped => 2
    case Reserved => 10
  }

  /** The id, class and rate: everything a spot never changes. */
  predicate SameIdentity(a: Spot, b: Spot) {
    a.spotId == b.spotId && a.kind == b.kind && a.hourlyRate == b.hourlyRate
  }

  /** The two occupancy fields agree: a spot is occupied exactly when it holds a vehicle. */
  predicate Consistent(s: Spot) {
    s.occupied <==> s.occupant.Some?
  }

  /** The `(String spotId)` constructor of each subclass: the id verbatim, the class's rate, vacant. */
  function NewSpot(k: SpotType, spotId: string): (s: Spot)
    ensures s.spotId == spotId && s.kind == k && s.TypeName() == DisplayName(k)
    ensures s.hourlyRate == ClassRate(k)
    ensures !s.occupied && s.occupant.None? && Consistent(s)
  {
    Spot(spotId, k, ClassRate(k), false, None)
  }

  /**
   * The `(int floor, int row, int spot)` constructor of each subclass: the id
   * is `formatSpotId(floor, row, spot)`, which decodes back to the three numbers.
   */
  function NewSpotAt(k: SpotType, floor: nat, row: nat, spot: nat): (s: Spot)
    ensures s.spotId == FormatSpotId(floor, row, spot)
    ensures ParseSpotId(s.spotId, Some(s.TypeName())) == Some(SpotIdParts(floor, row, spot, DisplayName(k)))
    ensures s == NewSpot(k, s.spotId)
  {
    ParseFormatSpotId(floor, row, spot, Some(DisplayName(k)));
    NewSpot(k, FormatSpotId(floor, row, spot))
  }

  /** The subclass constants: Compact 2, Regular 5, Handicapped 2, Reserved 10. */
  lemma SubclassConstants(spotId: string)
    ensures NewSpot(Compact, spotId).TypeName() == "Compact" && NewSpot(Compact, spotId).hourlyRate == 2
    ensures NewSpot(Regular, spotId).TypeName() == "Regular" && NewSpot(Regular, spotId).hourlyRate == 5
    ensures NewSpot(Handicapped, spotId).TypeName() == "Handicapped" && NewSpot(Handicapped, spotId).hourlyRate == 2
    ensures NewSpot(Reserved, spotId).TypeName() == "Reserved" && NewSpot(Reserved, spotId).hourlyRate == 10
  {
  }

  // ---------------------------------------------------------------------------
  // Occupancy
  // ---------------------------------------------------------------------------

  /** What `park` returns, and the spot as it is afterwards. */
  datatype ParkResult = ParkResult(parked: bool, spot: Spot)

  /**
   * `park`: refused when the spot is taken or the vehicle's own `canParkIn`
   * rejects the spot's type (no VIP rule here); otherwise the vehicle is placed.
   */
  function Park(s: Spot, v: Vehicle): (r: ParkResult)
    ensures r.parked <==> !s.occupied && CanParkIn(v.vclass, s.TypeName())
    ensures !r.parked ==> r.spot == s
    ensures r.parked ==> SameIdentity(r.spot, s) && r.spot.occupied && r.spot.occupant == Some(v)
  {
    if s.occupied then ParkResult(false, s)
    else if !CanParkIn(v.vclass, s.TypeName()) then ParkResult(false, s)
    else ParkResult(true, s.(occupant := Some(v), occupied := true))
  }

  /** `removeVehicle`: the spot is left vacant whatever its state. */
  function RemoveVehicle(s: Spot): (r: Spot)
    ensures SameIdentity(r, s)
    ensures !r.occupied && r.occupant.None?
  {
    s.(occupant := None, occupied := false)
  }

  /** Both transitions keep the two occupancy fields in agreement. */
  lemma ParkKeepsConsistent(s: Spot, v: Vehicle)
    requires Consistent(s)
    ensures Consistent(Park(s, v).spot)
    ensures Consistent(RemoveVehicle(s))
  {
  }

  /** A successful park followed by a removal gives back the vacant spot parked into. */
  lemma ParkThenRemove(s: Spot, v: Vehicle)
    requires !s.occupied && s.occupant.None?
    requires Park(s, v).parked
    ensures RemoveVehicle(Park(s, v).spot) == s
  {
  }

  lemma RemoveIdempotent(s: Spot)
    ensures RemoveVehicle(RemoveVehicle(s)) == RemoveVehicle(s)
  {
  }

  /** A spot holding one vehicle refuses a second. */
  lemma SecondParkRefused(s: Spot, v: Vehicle, w: Vehicle)
    requires Park(s, v).parked
    ensures !Park(Park(s, v).spot, w).parked
    ensures Park(Park(s, v).spot, w).spot.occupant == Some(v)
  {
  }

  // ---------------------------------------------------------------------------
  // Floors
  // ---------------------------------------------------------------------------

  /** A floor: its id (`"Floor 1"` and so on) and its spots in insertion order. */
  datatype Floor = Floor(floorId: string, spots: seq<Spot>)

  function NewFloor(floorId: string): (f: Floor)
    ensures f.floorId == floorId && |f.spots| == 0
  {
    Floor(floorId, [])
  }

  /** `addSpot`: appends at the end; the id and the earlier spots are unchanged. */
  function AddSpot(f: Floor, s: Spot): (r: Floor)
    ensures r.floorId == f.floorId
    ensures |r.spots| == |f.spots| + 1
    ensures r.spots[..|f.spots|] == f.spots && r.spots[|f.spots|] == s
  {
    f.(spots := f.spots + [s])
  }

  /** The vacant spots of a list, in the list's order. */
  function Vacant(spots: seq<Spot>): (r: seq<Spot>)
    ensures |r| <= |spots|
    ensures forall k :: 0 <= k < |r| ==> !r[k].occupied
    decreases |spots|
  {
    if |spots| == 0 then []
    else (if spots[0].occupied then [] else [spots[0]]) + Vacant(spots[1..])
  }

  /** Exactly the vacant spots of the list are kept. */
  lemma {:induction false} VacantMembers(spots: seq<Spot>)
    ensures forall x :: x in Vacant(spots) <==> x in spots && !x.occupied
    decreases |spots|
  {
    if |spots| > 0 {
      VacantMembers(spots[1..]);
      assert spots == [spots[0]] + spots[1..];
    }
  }

  /** Filtering distributes over concatenation, so relative order is kept. */
  lemma {:induction false} VacantConcat(a: seq<Spot>, b: seq<Spot>)
    ensures Vacant(a + b) == Vacant(a) + Vacant(b)
    decreases |a|
  {
    if |a| == 0 {
      assert a + b == b;
    } else {
      var ab := a + b;
      assert ab[0] == a[0] && ab[1..] == a[1..] + b;
      VacantConcat(a[1..], b);
      var head := if a[0].occupied then [] else [a[0]];
      assert Vacant(ab) == head + Vacant(a[1..] + b);
      assert head + (Vacant(a[1..]) + Vacant(b)) == (head + Vacant(a[1..])) + Vacant(b);
    }
  }

  /** A single spot is kept exactly when it is vacant. */
  lemma VacantSingle(spot: Spot)
    ensures Vacant([spot]) == if spot.occupied then [] else [spot]
  {
    assert [spot][1..] == [];
  }

  /** A list without occupied spots is its own vacant list; a fully occupied one has none. */
  lemma {:induction false} VacantExtremes(spots: seq<Spot>)
    ensures (forall i :: 0 <= i < |spots| ==> !spots[i].occupied) ==> Vacant(spots) == spots
    ensures (forall i :: 0 <= i < |spots| ==> spots[i].occupied) ==> Vacant(spots) == []
    decreases |spots|
  {
    if |spots| > 0 {
      VacantExtremes(spots[1..]);
    }
  }

  /** `getAvailableSpots`: one pass over the floor, keeping the vacant spots in order. */
  method GetAvailableSpots(f: Floor) returns (available: seq<Spot>)
    ensures available == Vacant(f.spots)
  {
    available := [];
    var i := 0;
    while i < |f.spots|
      invariant 0 <= i <= |f.spots|
      invariant available == Vacant(f.spots[..i])
    {
      var spot := f.spots[i];
      assert Vacant(f.spots[..i + 1]) == Vacant(f.spots[..i]) + Vacant([spot]) by {
        assert f.spots[..i + 1] == f.spots[..i] + [spot];
        VacantConcat(f.spots[..i], [spot]);
      }
      VacantSingle(spot);
      if !spot.occupied {
        available := available + [spot];
      }
      i := i + 1;
    }
    assert f.spots[..i] == f.spots;
  }
}
