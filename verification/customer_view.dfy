/**
 * The pure helpers of the customer screens (`CustomerUI`): hour rounding on
 * milliseconds, the display rate, the offered parking types, the 30-row floor
 * view, the spot type read back from a spot id, the duration text, and the
 * pay-and-exit step that ties billing, fines and records together.
 */
module CustomerView {
  import opened Wrappers
  import opened Text
  import opened SpotTypes
  import opened SpotIds
  import opened Vehicles
  import opened Spots
  import opened Lots
  import opened Billing
  import opened FineSchemes
  import opened Records

  const MillisPerHour: int := 3600000

  /**
   * `Math.max(1L, (parkedMillis + 60L*60*1000 - 1) / (60L*60*1000))`: the
   * milliseconds rounded up to whole hours (Java division), at least one hour.
   */
  function HoursRoundedUp(parkedMillis: int): (hours: int)
    ensures hours >= 1
    ensures parkedMillis <= MillisPerHour * hours
    ensures hours > 1 ==> MillisPerHour * (hours - 1) < parkedMillis
  {
    var h := TruncDiv(parkedMillis + MillisPerHour - 1, MillisPerHour);
    if h < 1 then 1 else h
  }

  /** 60 minutes and 30 seconds: two hours on the customer screen, one hour in `Payment`. */
  lemma RoundingVariantsDiffer()
    ensures HoursRoundedUp(3630000) == 2
    ensures StayHours(0, 3630000) == 1
  {
  }

  /** On whole minutes the two roundings agree, and the customer screen never shows fewer hours. */
  lemma RoundingVariantsAgreeOnWholeMinutes(entryTime: int, minutes: nat)
    ensures HoursRoundedUp(60000 * minutes) == StayHours(entryTime, entryTime + 60000 * minutes)
  {
    assert WholeMinutes(entryTime, entryTime + 60000 * minutes) == minutes;
  }

  lemma CustomerHoursAtLeastPaymentHours(entryTime: int, exitTime: int)
    ensures HoursRoundedUp(exitTime - entryTime) >= StayHours(entryTime, exitTime)
  {
    var m := WholeMinutes(entryTime, exitTime);
    var h := HoursRoundedUp(exitTime - entryTime);
    if entryTime <= exitTime {
      assert 60000 * m <= exitTime - entryTime <= MillisPerHour * h;
      assert m <= 60 * h;
    }
  }

  // ---------------------------------------------------------------------------
  // Rates
  // ---------------------------------------------------------------------------

  /** `getParkingRate`: the payment rules, except that an unknown spot type costs 0. */
  function GetParkingRate(spotType: string, vehicleType: Option<string>, isOku: bool): (rate: int)
    ensures rate >= 0
    ensures FromDisplayName(Some(spotType)).Some? || isOku ==> rate == ResolveRate(spotType, vehicleType, isOku, PaymentUnknownRate)
    ensures FromDisplayName(Some(spotType)).None? && !isOku ==> rate == 0
  {
    ResolveRate(spotType, vehicleType, isOku, 0)
  }

  /** The screen and `Payment` quote different rates only for an unknown spot type without a card. */
  lemma ScreenRateDiffersOnlyForUnknownTypes(spotType: string, vehicleType: Option<string>)
    requires FromDisplayName(Some(spotType)).None?
    ensures GetParkingRate(spotType, vehicleType, false) == 0
    ensures ResolveRate(spotType, vehicleType, false, PaymentUnknownRate) == 5
  {
  }

  // ---------------------------------------------------------------------------
  // Offered parking types
  // ---------------------------------------------------------------------------

  /** `getAvailableParkingTypes`: a fixed list per vehicle label; VIPs also get Reserved (no motorcycle). */
  function GetAvailableParkingTypes(vehicleType: Option<string>, isVip: bool): (r: seq<string>)
    ensures forall t :: t in r ==> t in DisplayNames
    ensures vehicleType.None? ==> r == DisplayNames
    ensures vehicleType.Some? && vehicleType.value !in FactoryNames ==> r == DisplayNames
    ensures "Reserved" in r && vehicleType.Some? && vehicleType.value in FactoryNames ==> isVip && vehicleType.value != "Motorcycle"
  {
    match vehicleType
    case None => DisplayNames
    case Some(t) =>
      if |t| == 0 then DisplayNames
      else if t == "Motorcycle" then ["Compact"]
      else if t == "Car" then (if isVip then ["Compact", "Regular", "Reserved"] else ["Compact", "Regular"])
      else if t == "SUV/Truck" then (if isVip then ["Regular", "Reserved"] else ["Regular"])
      else if t == "Handicapped Vehicle" then (if isVip then DisplayNames else ["Compact", "Regular", "Handicapped"])
      else DisplayNames
  }

  /** Display names equal up to letter case only when they are the same class. */
  lemma DisplayNamesCaseDistinct(a: SpotType, b: SpotType)
    requires EqualsIgnoreCase(DisplayName(a), DisplayName(b))
    ensures a == b
  {
    assert ToLowerChar(DisplayName(a)[0]) == ToLowerChar(DisplayName(b)[0]);
  }

  /** In the default lot the sample spot found for each class name is of that class. */
  lemma DefaultSample(k: SpotType)
    ensures GetSampleSpotByType(Lot(DefaultFloors), DisplayName(k)).Some?
    ensures GetSampleSpotByType(Lot(DefaultFloors), DisplayName(k)).value.kind == k
  {
    var j := match k case Reserved => 0 case Handicapped => 5 case Compact => 10 case Regular => 20;
    DefaultSpotAt(1, j);
    DefaultSpotFacts(1, j);
    var sample := AllSpots(DefaultFloors)[j];
    assert sample.kind == k;
    assert EqualsIgnoreCase(sample.TypeName(), DisplayName(k));
    var found := GetSampleSpotByType(Lot(DefaultFloors), DisplayName(k));
    DisplayNamesCaseDistinct(found.value.kind, k);
  }

  /** The allocation rule's verdict on the default lot's sample spots is the table `Allowed`. */
  lemma DefaultAdmits(v: Vehicle, k: SpotType, isVip: bool)
    ensures Admits(Lot(DefaultFloors), DisplayName(k), Some(v), isVip) == Allowed(v.vclass, k, isVip)
  {
    DefaultSample(k);
    IsSpotAllowedTable(v, GetSampleSpotByType(Lot(DefaultFloors), DisplayName(k)).value, isVip);
  }

  /** Rank-sorted lists of display names are determined by their members. */
  lemma {:induction false} SortedNamesUnique(x: seq<string>, y: seq<string>)
    requires RankSorted(x) && RankSorted(y)
    requires forall t :: t in x ==> t in DisplayNames
    requires forall t :: t in x <==> t in y
    ensures x == y
    decreases |x|
  {
    InDisplayNames();
    assert |x| > 0 ==> x[0] in y;
    assert |y| > 0 ==> y[0] in x;
    if |x| > 0 && |y| > 0 {
      assert Rank(x[0]) <= Rank(y[0]) && Rank(y[0]) <= Rank(x[0]);
      assert x[0] == y[0];
      var x', y' := x[1..], y[1..];
      forall t ensures t in x' <==> t in y' {
        if t in x' {
          assert t in x && t != x[0];
        }
        if t in y' {
          assert t in y && t != y[0];
        }
      }
      SortedNamesUnique(x', y');
      assert x == [x[0]] + x' && y == [y[0]] + y';
    }
  }

  /** The screen's list for a vehicle class, read as membership of each class name. */
  lemma OfferedMembership(c: VehicleClass, isVip: bool)
    ensures RankSorted(GetAvailableParkingTypes(Some(FactoryName(c)), isVip))
    ensures forall k :: DisplayName(k) in GetAvailableParkingTypes(Some(FactoryName(c)), isVip) <==> Allowed(c, k, isVip)
  {
    match c
    case Motorcycle =>
    case Car =>
    case Suv =>
    case HandicappedVehicle =>
  }

  /**
   * The customer screen offers each vehicle class exactly the types the lot's
   * allocation rule allows on the default layout, in the same order, for VIPs
   * and others alike.
   */
  lemma OfferedTypesMatchAllocation(c: VehicleClass, licensePlate: string, now: int, isVip: bool)
    ensures GetAvailableParkingTypes(Some(FactoryName(c)), isVip)
         == GetAllowedSpotTypes(Lot(DefaultFloors), Some(NewVehicle(licensePlate, c, now)), isVip)
  {
    var v := NewVehicle(licensePlate, c, now);
    var offered := GetAvailableParkingTypes(Some(FactoryName(c)), isVip);
    var allowed := GetAllowedSpotTypes(Lot(DefaultFloors), Some(v), isVip);
    OfferedMembership(c, isVip);
    InDisplayNames();
    forall t ensures t in offered <==> t in allowed {
      if t in DisplayNames {
        var k := FromDisplayName(Some(t)).value;
        DisplayNameRoundTrip(k);
        DefaultAdmits(v, k, isVip);
      }
    }
    SortedNamesUnique(offered, allowed);
  }

  // ---------------------------------------------------------------------------
  // Floor view
  // ---------------------------------------------------------------------------

  datatype SpotStatus = Available | Occupied

  /** One row of the floor table: UI spot id, type name, status. */
  datatype SpotRow = SpotRow(spotId: string, typeName: string, status: SpotStatus)

  function RowFor(spotId: string, typeName: string, occupied: set<string>): (r: SpotRow)
    ensures r.spotId == spotId && r.typeName == typeName
    ensures r.status == Occupied <==> spotId in occupied
  {
    SpotRow(spotId, typeName, if spotId in occupied then Occupied else Available)
  }

  /** The customer id of the `i`-th spot counted from spot number `first` of one row and type. */
  function UiIdFrom(floorNum: int, typeName: string, row: int, first: int): int -> string {
    i => FormatUiSpotId(floorNum, typeName, row, first + i)
  }

  /** `n` rows of one type, the `i`-th for the spot id `idOf(i)`. */
  function RowsFrom(n: nat, idOf: int -> string, typeName: string, occupied: set<string>): (r: seq<SpotRow>)
    ensures |r| == n
    ensures forall i :: 0 <= i < n ==> r[i] == RowFor(idOf(i), typeName, occupied)
  {
    seq(n, i => RowFor(idOf(i), typeName, occupied))
  }

  /** One of the screen's loops: spots `first`..`last` of a row, all of one type. */
  function Segment(floorNum: int, typeName: string, row: int, first: int, last: int, occupied: set<string>): (r: seq<SpotRow>)
    requires first <= last + 1
    ensures |r| == last - first + 1
    ensures forall i :: 0 <= i < |r| ==> r[i] == RowFor(UiIdFrom(floorNum, typeName, row, first)(i), typeName, occupied)
  {
    RowsFrom(last - first + 1, UiIdFrom(floorNum, typeName, row, first), typeName, occupied)
  }

  /**
   * `getSpotsForFloor`: the 30 rows of a floor, built from the layout rule
   * rather than from the lot, each marked occupied when its UI id is taken.
   */
  function GetSpotsForFloorView(floorNum: int, occupied: set<string>): (r: seq<SpotRow>)
    ensures |r| == 30
    ensures forall j :: 0 <= j < 30 ==> (r[j].status == Occupied <==> r[j].spotId in occupied)
  {
    var firstRow :=
      if floorNum <= 3 then Segment(floorNum, "Reserved", 1, 1, 5, occupied) + Segment(floorNum, "Handicapped", 1, 6, 10, occupied)
      else Segment(floorNum, "Reserved", 1, 1, 10, occupied);
    firstRow + Segment(floorNum, "Compact", 2, 11, 20, occupied) + Segment(floorNum, "Regular", 3, 21, 30, occupied)
  }

  /** Row `k` of a segment, with the type, row and spot number given as equal values. */
  lemma SegmentRowAt(floorNum: int, typeName: string, row: int, first: int, last: int, occupied: set<string>,
                     k: int, name: string, rowNum: int, spot: int)
    requires first <= last + 1 && 0 <= k <= last - first
    requires name == typeName && rowNum == row && spot == first + k
    ensures Segment(floorNum, typeName, row, first, last, occupied)[k] == RowFor(FormatUiSpotId(floorNum, name, rowNum, spot), name, occupied)
  {
  }

  /** Row `j` of the view, on floors 1-3, in terms of spot number `j + 1`. */
  lemma ViewRowLow(floorNum: int, occupied: set<string>, j: nat)
    requires floorNum <= 3 && j < 30
    ensures GetSpotsForFloorView(floorNum, occupied)[j]
         == RowFor(FormatUiSpotId(floorNum, DisplayName(KindOfSpotNumber(floorNum, j + 1)), j / 10 + 1, j + 1),
                   DisplayName(KindOfSpotNumber(floorNum, j + 1)), occupied)
  {
    var v := GetSpotsForFloorView(floorNum, occupied);
    var a := Segment(floorNum, "Reserved", 1, 1, 5, occupied);
    var b := Segment(floorNum, "Handicapped", 1, 6, 10, occupied);
    var c := Segment(floorNum, "Compact", 2, 11, 20, occupied);
    var d := Segment(floorNum, "Regular", 3, 21, 30, occupied);
    var name := DisplayName(KindOfSpotNumber(floorNum, j + 1));
    assert v == a + b + c + d;
    if j < 5 {
      assert v[j] == a[j];
      SegmentRowAt(floorNum, "Reserved", 1, 1, 5, occupied, j, name, j / 10 + 1, j + 1);
    } else if j < 10 {
      assert v[j] == b[j - 5];
      SegmentRowAt(floorNum, "Handicapped", 1, 6, 10, occupied, j - 5, name, j / 10 + 1, j + 1);
    } else if j < 20 {
      assert v[j] == c[j - 10];
      SegmentRowAt(floorNum, "Compact", 2, 11, 20, occupied, j - 10, name, j / 10 + 1, j + 1);
    } else {
      assert v[j] == d[j - 20];
      SegmentRowAt(floorNum, "Regular", 3, 21, 30, occupied, j - 20, name, j / 10 + 1, j + 1);
    }
  }

  /** Row `j` of the view, above floor 3, in terms of spot number `j + 1`. */
  lemma ViewRowHigh(floorNum: int, occupied: set<string>, j: nat)
    requires floorNum > 3 && j < 30
    ensures GetSpotsForFloorView(floorNum, occupied)[j]
         == RowFor(FormatUiSpotId(floorNum, DisplayName(KindOfSpotNumber(floorNum, j + 1)), j / 10 + 1, j + 1),
                   DisplayName(KindOfSpotNumber(floorNum, j + 1)), occupied)
  {
    var v := GetSpotsForFloorView(floorNum, occupied);
    var a := Segment(floorNum, "Reserved", 1, 1, 10, occupied);
    var c := Segment(floorNum, "Compact", 2, 11, 20, occupied);
    var d := Segment(floorNum, "Regular", 3, 21, 30, occupied);
    var name := DisplayName(KindOfSpotNumber(floorNum, j + 1));
    assert v == a + c + d;
    if j < 10 {
      assert v[j] == a[j];
      SegmentRowAt(floorNum, "Reserved", 1, 1, 10, occupied, j, name, j / 10 + 1, j + 1);
    } else if j < 20 {
      assert v[j] == c[j - 10];
      SegmentRowAt(floorNum, "Compact", 2, 11, 20, occupied, j - 10, name, j / 10 + 1, j + 1);
    } else {
      assert v[j] == d[j - 20];
      SegmentRowAt(floorNum, "Regular", 3, 21, 30, occupied, j - 20, name, j / 10 + 1, j + 1);
    }
  }

  /** The screen's floor view lists exactly the default lot's spots of that floor, by UI id and type, in order. */
  lemma ViewMatchesLayout(f: nat, occupied: set<string>, j: nat)
    requires j < 30
    ensures GetSpotsForFloorView(f, occupied)[j].spotId
         == ToUiSpotId(DefaultFloor(f).spots[j].spotId, DefaultFloor(f).spots[j].TypeName())
    ensures GetSpotsForFloorView(f, occupied)[j].typeName == DefaultFloor(f).spots[j].TypeName()
  {
    if f <= 3 {
      ViewRowLow(f, occupied, j);
    } else {
      ViewRowHigh(f, occupied, j);
    }
    DefaultSpotFacts(f, j);
    var s := DefaultFloor(f).spots[j];
    DisplayNameIsWord(s.kind);
    SpotIdRoundTrip(f, j / 10 + 1, j + 1, s.TypeName());
  }

  // ---------------------------------------------------------------------------
  // Spot type from a spot id
  // ---------------------------------------------------------------------------

  /** The position of the first '-' in `s`, or `|s|` when there is none. */
  function FirstDash(s: string): (d: nat)
    ensures d <= |s|
    ensures forall i :: 0 <= i < d ==> s[i] != '-'
    ensures d < |s| ==> s[d] == '-'
    decreases |s|
  {
    if |s| == 0 then 0 else if s[0] == '-' then 0 else 1 + FirstDash(s[1..])
  }

  lemma {:induction false} FirstDashOfConcat(a: string, b: string)
    requires forall i :: 0 <= i < |a| ==> a[i] != '-'
    ensures FirstDash(a + b) == |a| + FirstDash(b)
    decreases |a|
  {
    if |a| > 0 {
      assert (a + b)[0] == a[0] && a[0] != '-';
      assert (a + b)[1..] == a[1..] + b;
      FirstDashOfConcat(a[1..], b);
      assert FirstDash(a + b) == 1 + FirstDash((a + b)[1..]);
    } else {
      assert a + b == b;
    }
  }

  /**
   * `extractSpotType`: the second '-'-separated field of the id, or "" when
   * the id is `null`, empty or has no '-'. (Java's removal of trailing empty
   * fields only ever drops an empty second field, which reads as "" here too.)
   */
  function ExtractSpotType(spotId: Option<string>): (r: string)
    ensures forall i :: 0 <= i < |r| ==> r[i] != '-'
    ensures spotId.None? || FirstDash(spotId.value) == |spotId.value| ==> r == ""
    ensures spotId.Some? && FirstDash(spotId.value) < |spotId.value| ==>
      var s, d := spotId.value, FirstDash(spotId.value);
      d + 1 + |r| <= |s| && s[d + 1..d + 1 + |r|] == r && (d + 1 + |r| == |s| || s[d + 1 + |r|] == '-')
  {
    match spotId
    case None => ""
    case Some(s) =>
      var d := FirstDash(s);
      if d == |s| then ""
      else
        var rest := s[d + 1..];
        rest[..FirstDash(rest)]
  }

  /** An id of the shape head-field-tail, with no '-' in head or field, yields the field. */
  lemma {:induction false} SecondField(head: string, field: string, tail: string)
    requires forall i :: 0 <= i < |head| ==> head[i] != '-'
    requires forall i :: 0 <= i < |field| ==> field[i] != '-'
    requires |tail| == 0 || tail[0] == '-'
    ensures ExtractSpotType(Some(head + ("-" + (field + tail)))) == field
  {
    var s := head + ("-" + (field + tail));
    FirstDashOfConcat(head, "-" + (field + tail));
    assert FirstDash(s) == |head|;
    assert s[|head| + 1..] == field + tail;
    FirstDashOfConcat(field, tail);
    if |tail| > 0 {
      assert FirstDash(tail) == 0;
    }
    assert (field + tail)[..|field|] == field;
  }

  /** "F" and the floor's digits carry no '-'. */
  lemma FloorHeadHasNoDash(floor: nat)
    ensures forall i :: 0 <= i < |"F" + IntToString(floor)| ==> ("F" + IntToString(floor))[i] != '-'
  {
    var h := "F" + IntToString(floor);
    forall i | 0 <= i < |h| ensures h[i] != '-' {
      if i > 0 {
        assert h[i] == IntToString(floor)[i - 1];
      }
    }
  }

  /** Proof helper: a text of the UI shape, whatever its numbers, has the type name as its second field. */
  lemma UiShapeSecondField(head: string, typeName: string, rowText: string, spotText: string)
    requires forall i :: 0 <= i < |head| ==> head[i] != '-'
    requires forall i :: 0 <= i < |typeName| ==> typeName[i] != '-'
    ensures ExtractSpotType(Some(head + ("-" + (typeName + ("-R" + (rowText + ("S" + spotText))))))) == typeName
  {
    SecondField(head, typeName, "-R" + (rowText + ("S" + spotText)));
  }

  /** On a UI id the second field is the type name, as `ParkingSpot.extractType` reads it. */
  lemma ExtractSpotTypeOfUiId(floor: nat, typeName: string, row: nat, spot: nat)
    requires |typeName| > 0 && AllInClass(typeName, Letters)
    ensures ExtractSpotType(Some(FormatUiSpotId(floor, typeName, row, spot))) == typeName
    ensures ExtractSpotType(Some(FormatUiSpotId(floor, typeName, row, spot))) == ExtractType(FormatUiSpotId(floor, typeName, row, spot))
  {
    assert FormatUiSpotId(floor, typeName, row, spot)
        == ("F" + IntToString(floor)) + ("-" + (typeName + ("-R" + (IntToString(row) + ("S" + Pad2(spot))))));
    FloorHeadHasNoDash(floor);
    assert forall i :: 0 <= i < |typeName| ==> typeName[i] != '-' by {
      assert forall i :: 0 <= i < |typeName| ==> InClass(typeName[i], Letters);
    }
    UiShapeSecondField("F" + IntToString(floor), typeName, IntToString(row), Pad2(spot));
    ParseFormatUiSpotId(floor, typeName, row, spot, None);
  }

  /** The regrouping behind `InternalIdShape`, for any three texts. */
  lemma RegroupInternalId(a: string, b: string, c: string)
    ensures "F" + (a + ("-R" + (b + ("-S" + c)))) == ("F" + a) + ("-" + (("R" + b) + ("-S" + c)))
  {
    var x := b + ("-S" + c);
    assert "-R" + x == "-" + ("R" + x) by {
      assert "-R" == "-" + "R";
      assert ("-" + "R") + x == "-" + ("R" + x);
    }
    assert "R" + x == ("R" + b) + ("-S" + c);
    assert "F" + (a + ("-" + ("R" + x))) == ("F" + a) + ("-" + ("R" + x));
  }

  /** An internal id regrouped as head "-" field tail, the field being "R" and the row. */
  lemma InternalIdShape(floor: nat, row: nat, spot: nat)
    ensures FormatSpotId(floor, row, spot)
         == ("F" + IntToString(floor)) + ("-" + (("R" + IntToString(row)) + ("-S" + Pad2(spot))))
  {
    RegroupInternalId(IntToString(floor), IntToString(row), Pad2(spot));
  }

  /** On an internal id the second field is the row ("R" and its number), where `extractType` finds no type. */
  lemma ExtractSpotTypeOfInternalId(floor: nat, row: nat, spot: nat)
    ensures ExtractSpotType(Some(FormatSpotId(floor, row, spot))) == "R" + IntToString(row)
  {
    var field := "R" + IntToString(row);
    InternalIdShape(floor, row, spot);
    FloorHeadHasNoDash(floor);
    assert forall i :: 0 <= i < |field| ==> field[i] != '-' by {
      forall i | 0 <= i < |field| ensures field[i] != '-' {
        if i > 0 {
          assert field[i] == IntToString(row)[i - 1];
        }
      }
    }
    SecondField("F" + IntToString(floor), field, "-S" + Pad2(spot));
  }

  /** The first Reserved spot's internal id reads as type "R1". */
  lemma ExtractSpotTypeInternalSample()
    ensures ExtractSpotType(Some("F1-R1-S01")) == "R1"
  {
    ExtractSpotTypeOfInternalId(1, 1, 1);
    FirstReservedIdSpellings();
    OneDigit(1);
  }

  /** The same spot's UI id reads as "Reserved". */
  lemma ExtractSpotTypeUiSample()
    ensures ExtractSpotType(Some("F1-Reserved-R1S01")) == "Reserved"
  {
    FirstReservedIdSpellings();
    ExtractSpotTypeOfUiId(1, "Reserved", 1, 1);
  }

  // ---------------------------------------------------------------------------
  // Duration text
  // ---------------------------------------------------------------------------

  function Plural(n: int): string {
    if n != 1 then "s" else ""
  }

  /** "n hour" or "n hours". */
  function HoursText(n: int): string {
    IntToString(n) + " hour" + Plural(n)
  }

  /** "n day" or "n days". */
  function DaysText(n: int): string {
    IntToString(n) + " day" + Plural(n)
  }

  /** The bracketed part: the days when there are any, a space, the leftover hours when there are any. */
  function Breakdown(days: int, remaining: int): string {
    (if days > 0 then DaysText(days) else "")
    + (if days > 0 && remaining > 0 then " " else "")
    + (if remaining > 0 then HoursText(remaining) else "")
  }

  /** `formatDuration`: "h hour(s)", and for a day or more the breakdown into days and leftover hours. */
  function FormatDuration(hours: int): (r: string)
    ensures hours <= 0 ==> r == "0 hours"
    ensures hours > 0 ==> HoursText(hours) <= r
    ensures 0 < hours < 24 ==> r == HoursText(hours)
    ensures hours >= 24 ==> r == HoursText(hours) + " (" + Breakdown(hours / 24, hours % 24) + ")"
  {
    if hours <= 0 then "0 hours"
    else if hours < 24 then HoursText(hours)
    else HoursText(hours) + " (" + Breakdown(hours / 24, hours % 24) + ")"
  }

  /**
   * Built from whole days and leftover hours, a stay prints its hour count and
   * then exactly those days and, when there are any, those hours.
   */
  lemma FormatDurationOfDaysAndHours(days: int, rest: int)
    requires days >= 1 && 0 <= rest < 24
    ensures FormatDuration(24 * days + rest)
         == HoursText(24 * days + rest) + " (" + (DaysText(days) + (if rest > 0 then " " + HoursText(rest) else "")) + ")"
  {
    var h := 24 * days + rest;
    DayHourSplit(days, rest);
    BreakdownOfDays(days, rest);
    assert FormatDuration(h) == HoursText(h) + " (" + Breakdown(h / 24, h % 24) + ")";
  }

  lemma DayHourSplit(days: int, rest: int)
    requires days >= 1 && 0 <= rest < 24
    ensures (24 * days + rest) / 24 == days && (24 * days + rest) % 24 == rest && 24 * days + rest >= 24
  {
  }

  /** With at least one day the breakdown is the days, then the leftover hours when there are any. */
  lemma BreakdownOfDays(days: int, rest: int)
    requires days >= 1
    ensures Breakdown(days, rest) == DaysText(days) + (if rest > 0 then " " + HoursText(rest) else "")
  {
    if rest > 0 {
      SpaceJoin(DaysText(days), HoursText(rest));
    } else {
      EmptyJoin(DaysText(days));
    }
  }

  /** Proof helper: re-associates a join around a space, kept apart so the texts do not unfold. */
  lemma SpaceJoin(a: string, b: string)
    ensures (a + " ") + b == a + (" " + b)
  {
  }

  /** Proof helper: appending empty texts changes nothing. */
  lemma EmptyJoin(a: string)
    ensures a + "" + "" == a
  {
  }

  /** Proof helper: two-digit numbers print as their two digits. */
  lemma TwoDigits(n: nat)
    requires 10 <= n < 100
    ensures IntToString(n) == [DigitChar(n / 10), DigitChar(n % 10)]
  {
    assert NatToString(n / 10) == [DigitChar(n / 10)];
  }

  /** The shape of the text for 68 hours: two days and 20 hours. */
  lemma FormatDurationDaysShape()
    ensures FormatDuration(68) == HoursText(68) + " (" + (DaysText(2) + " " + HoursText(20)) + ")"
  {
    assert 68 / 24 == 2 && 68 % 24 == 20;
  }

  /** Proof helper: the pieces of the 68-hour text joined, as literals only. */
  lemma JoinDaysText()
    ensures "68 hours" + " (" + ("2 days" + " " + "20 hours") + ")" == "68 hours (2 days 20 hours)"
  {
  }

  /** The three pieces of the 68-hour text. */
  lemma DaysPieces()
    ensures HoursText(68) == "68 hours" && DaysText(2) == "2 days" && HoursText(20) == "20 hours"
  {
    TwoDigits(68);
    OneDigit(2);
    TwoDigits(20);
  }

  /** Just under three days: 68 hours are two days and 20 hours. */
  lemma FormatDurationDays()
    ensures FormatDuration(68) == "68 hours (2 days 20 hours)"
  {
    FormatDurationDaysShape();
    DaysPieces();
    JoinDaysText();
  }

  /** Exactly one day prints no leftover hours. */
  lemma FormatDurationOneDay()
    ensures FormatDuration(24) == "24 hours (1 day)"
  {
    assert "24 hours" + " (" + "1 day" + ")" == "24 hours (1 day)";
    assert HoursText(24) == "24 hours" by { TwoDigits(24); }
    assert DaysText(1) == "1 day" by { OneDigit(1); }
  }

  /** One hour past a day: both parts in the singular. */
  lemma FormatDurationDayAndHour()
    ensures FormatDuration(25) == "25 hours (1 day 1 hour)"
  {
    assert "25 hours" + " (" + ("1 day" + " " + "1 hour") + ")" == "25 hours (1 day 1 hour)";
    assert HoursText(25) == "25 hours" by { TwoDigits(25); }
    assert DaysText(1) == "1 day" && HoursText(1) == "1 hour" by { OneDigit(1); }
  }

  lemma FormatDurationShort()
    ensures FormatDuration(1) == "1 hour"
    ensures FormatDuration(0) == "0 hours" && FormatDuration(-3) == "0 hours"
  {
    OneDigit(1);
  }

  // ---------------------------------------------------------------------------
  // Pay and exit
  // ---------------------------------------------------------------------------

  /** The records the pay step reads and writes. */
  datatype Desk = Desk(parked: ParkedStore, accounts: Accounts, history: seq<Activation>)

  /** The amounts shown on the receipt. */
  datatype Receipt = Receipt(parkingFee: int, fine: int, totalDue: int)

  /**
   * The receipt for a parked record: the screen rate for its spot and vehicle
   * times the hours rounded up since entry, and the fine under the scheme
   * active at entry plus the plate's unpaid fines.
   */
  function ExitCharges(history: seq<Activation>, unpaid: FineLedger, dv: ParkedRecord, plate: string, now: int, isOku: bool): (rc: Receipt)
    ensures rc.parkingFee
         == GetParkingRate(ExtractSpotType(dv.parkingSpot), Some(dv.vehicleType), isOku) * HoursRoundedUp(now - dv.entryMillis)
    ensures rc.fine - GetUnpaidFine(unpaid, Some(plate))
         == CalculateFineAtEntryTime(history, HoursRoundedUp(now - dv.entryMillis), dv.entryMillis, plate)
    ensures rc.fine >= GetUnpaidFine(unpaid, Some(plate))
    ensures rc.totalDue == rc.parkingFee + rc.fine
  {
    var hours := HoursRoundedUp(now - dv.entryMillis);
    var parkingFee := GetParkingRate(ExtractSpotType(dv.parkingSpot), Some(dv.vehicleType), isOku) * hours;
    var fine := CalculateFineAtEntryTime(history, hours, dv.entryMillis, plate) + GetUnpaidFine(unpaid, Some(plate));
    Receipt(parkingFee, fine, parkingFee + fine)
  }

  /**
   * "Pay & Continue": for a parked plate, the fee at the screen rate for the
   * rounded-up hours, the automatic fine under the scheme active at entry plus
   * the plate's unpaid fines, all recorded as paid; then the vehicle's row is
   * removed. `None` when no plate is given or the plate has no parking record.
   */
  function PayAndExit(desk: Desk, plate: string, now: int, isOku: bool, paymentMethod: string): (r: Option<(Desk, Receipt)>)
    ensures r.None? <==> |plate| == 0 || NormalizePlate(Some(plate)) !in desk.parked
    ensures r.Some? ==> NormalizePlate(Some(plate)) !in r.value.0.parked
    ensures r.Some? ==> GetUnpaidFine(r.value.0.accounts.unpaid, Some(plate)) == 0
    ensures r.Some? ==> r.value.1.totalDue == r.value.1.parkingFee + r.value.1.fine
    ensures r.Some? ==> r.value.1.fine >= GetUnpaidFine(desk.accounts.unpaid, Some(plate))
    ensures r.Some? ==> r.value.1 == ExitCharges(desk.history, desk.accounts.unpaid, desk.parked[NormalizePlate(Some(plate))], plate, now, isOku)
    ensures r.Some? ==> r.value.0.history == desk.history
    ensures r.Some? ==> r.value.0.parked == RemoveParkedVehicle(desk.parked, Some(plate))
    ensures r.Some? ==> (r.value.0.accounts
                         == RecordPayment(desk.accounts, Some(plate), r.value.1.totalDue, r.value.1.parkingFee, r.value.1.fine, paymentMethod))
  {
    var norm := NormalizePlate(Some(plate));
    if |plate| == 0 || norm !in desk.parked then None
    else
      var dv := desk.parked[norm];
      var rc := ExitCharges(desk.history, desk.accounts.unpaid, dv, plate, now, isOku);
      var accounts := RecordPayment(desk.accounts, Some(plate), rc.totalDue, rc.parkingFee, rc.fine, paymentMethod);
      var parked := RemoveParkedVehicle(desk.parked, Some(plate));
      Some((Desk(parked, accounts, desk.history), rc))
  }

  /**
   * The receipt of a successful exit: the fee is the spot's rate times the
   * hours rounded up since entry, and the fine is the entry-time scheme's fine
   * for those hours plus what the plate owed before.
   */
  lemma PayAndExitReceipt(desk: Desk, plate: string, now: int, isOku: bool, paymentMethod: string)
    requires |plate| > 0 && NormalizePlate(Some(plate)) in desk.parked
    ensures var dv := desk.parked[NormalizePlate(Some(plate))];
            var receipt := PayAndExit(desk, plate, now, isOku, paymentMethod).value.1;
            receipt.parkingFee
              == GetParkingRate(ExtractSpotType(dv.parkingSpot), Some(dv.vehicleType), isOku) * HoursRoundedUp(now - dv.entryMillis)
            && receipt.fine
              == CalculateFineAtEntryTime(desk.history, HoursRoundedUp(now - dv.entryMillis), dv.entryMillis, plate)
                 + GetUnpaidFine(desk.accounts.unpaid, Some(plate))
  {
    var rc := ExitCharges(desk.history, desk.accounts.unpaid, desk.parked[NormalizePlate(Some(plate))], plate, now, isOku);
    assert PayAndExit(desk, plate, now, isOku, paymentMethod).value.1 == rc;
  }

  /** Paying for one plate leaves every other plate's parking record and unpaid balance as they were. */
  lemma PayAndExitLeavesOthers(desk: Desk, plate: string, now: int, isOku: bool, paymentMethod: string, other: string)
    requires |plate| > 0 && NormalizePlate(Some(plate)) in desk.parked
    requires other != NormalizePlate(Some(plate))
    ensures var after := PayAndExit(desk, plate, now, isOku, paymentMethod).value.0;
            (other in after.parked <==> other in desk.parked)
            && (other in desk.parked ==> after.parked[other] == desk.parked[other])
            && (other in after.accounts.unpaid <==> other in desk.accounts.unpaid)
            && (other in desk.accounts.unpaid ==> after.accounts.unpaid[other] == desk.accounts.unpaid[other])
  {
  }

  /** Paying logs exactly one payment row, under the normalised plate, for the total due. */
  lemma PayAndExitLogsOnePayment(desk: Desk, plate: string, now: int, isOku: bool, paymentMethod: string)
    requires |plate| > 0 && NormalizePlate(Some(plate)) in desk.parked
    ensures var (after, receipt) := PayAndExit(desk, plate, now, isOku, paymentMethod).value;
            |after.accounts.payments| == |desk.accounts.payments| + 1
            && after.accounts.payments[..|desk.accounts.payments|] == desk.accounts.payments
            && after.accounts.payments[|desk.accounts.payments|].licensePlate == NormalizePlate(Some(plate))
            && after.accounts.payments[|desk.accounts.payments|].amount == receipt.totalDue
  {
    NormalizeIdempotent(Some(plate));
  }
}
