/**
 * The two textual spot identifiers of `ParkingSpot` and the conversions
 * between them:
 *   internal  `F<floor>-R<row>-S<spot>`          e.g. `F1-R1-S01`
 *   UI        `F<floor>-<Type>-R<row>S<spot>`    e.g. `F1-Reserved-R1S01`
 * Recognition follows the two whole-string regular expressions
 * `F(\d+)-([A-Za-z]+)-R(\d+)S(\d+)` and `F(\d+)-R(\d+)-S(\d+)`.
 */
module SpotIds {
  import opened Wrappers
  import opened Text

  // ---------------------------------------------------------------------------
  // Formatting
  // ---------------------------------------------------------------------------

  /** `String.format("F%d-R%d-S%02d", floor, row, spot)`. */
  function FormatSpotId(floor: int, row: int, spot: int): string {
    "F" + (IntToString(floor) + ("-R" + (IntToString(row) + ("-S" + Pad2(spot)))))
  }

  /** `String.format("F%d-%s-R%dS%02d", floor, type, row, spot)`. */
  function FormatUiSpotId(floor: int, typeName: string, row: int, spot: int): string {
    "F" + (IntToString(floor) + ("-" + (typeName + ("-R" + (IntToString(row) + ("S" + Pad2(spot)))))))
  }

  // ---------------------------------------------------------------------------
  // Greedy character-class spans (the `\d+` and `[A-Za-z]+` groups)
  // ---------------------------------------------------------------------------

  datatype CharClass = Digits | Letters

  predicate InClass(c: char, k: CharClass) {
    match k
    case Digits => IsDigit(c)
    case Letters => IsAsciiLetter(c)
  }

  predicate AllInClass(s: string, k: CharClass) {
    forall i :: 0 <= i < |s| ==> InClass(s[i], k)
  }

  /** Length of the longest prefix of `s` whose characters all belong to class `k`. */
  function Span(s: string, k: CharClass): (n: nat)
    ensures n <= |s|
    ensures AllInClass(s[..n], k)
    ensures n < |s| ==> !InClass(s[n], k)
    decreases |s|
  {
    if |s| == 0 || !InClass(s[0], k) then 0 else 1 + Span(s[1..], k)
  }

  /** Splits `s` into its longest class-`k` prefix and the rest. */
  function TakeRun(s: string, k: CharClass): (r: (string, string))
    ensures r.0 + r.1 == s
    ensures AllInClass(r.0, k)
    ensures |r.1| == 0 || !InClass(r.1[0], k)
  {
    var n := Span(s, k);
    (s[..n], s[n..])
  }

  /** A run of class characters followed by a non-class character (or the end) is taken exactly. */
  lemma {:induction false} TakeRunOfConcat(a: string, b: string, k: CharClass)
    requires AllInClass(a, k)
    requires |b| == 0 || !InClass(b[0], k)
    ensures TakeRun(a + b, k) == (a, b)
  {
    SpanOfConcat(a, b, k);
    assert (a + b)[..|a|] == a;
    assert (a + b)[|a|..] == b;
  }

  /** A run of class characters followed by a non-class character (or the end) spans the run exactly. */
  lemma {:induction false} SpanOfConcat(a: string, b: string, k: CharClass)
    requires AllInClass(a, k)
    requires |b| == 0 || !InClass(b[0], k)
    ensures Span(a + b, k) == |a|
    decreases |a|
  {
    if |a| > 0 {
      assert (a + b)[1..] == a[1..] + b;
      SpanOfConcat(a[1..], b, k);
    }
  }

  /** Consumes the literal `lit` at the front of `s`. */
  function DropLiteral(s: string, lit: string): (r: Option<string>)
    ensures r.Some? ==> s == lit + r.value
  {
    if |lit| <= |s| && s[..|lit|] == lit then
      assert s == s[..|lit|] + s[|lit|..];
      Some(s[|lit|..])
    else None
  }

  lemma DropLiteralOfConcat(lit: string, rest: string)
    ensures DropLiteral(lit + rest, lit) == Some(rest)
  {
    assert (lit + rest)[..|lit|] == lit;
    assert (lit + rest)[|lit|..] == rest;
  }

  // ---------------------------------------------------------------------------
  // The two patterns, matched on raw digit/letter groups
  // ---------------------------------------------------------------------------

  /** The four groups captured by the UI pattern. */
  datatype UiGroups = UiGroups(floorDigits: string, typeName: string, rowDigits: string, spotDigits: string)

  /** The three groups captured by the internal pattern. */
  datatype InternalGroups = InternalGroups(floorDigits: string, rowDigits: string, spotDigits: string)

  /** A non-empty run of one class: the content of a `\d+` or `[A-Za-z]+` group. */
  predicate IsRun(s: string, k: CharClass) {
    |s| > 0 && AllInClass(s, k)
  }

  predicate WellFormedUi(g: UiGroups) {
    IsRun(g.floorDigits, Digits) && IsRun(g.typeName, Letters) && IsRun(g.rowDigits, Digits) && IsRun(g.spotDigits, Digits)
  }

  predicate WellFormedInternal(g: InternalGroups) {
    IsRun(g.floorDigits, Digits) && IsRun(g.rowDigits, Digits) && IsRun(g.spotDigits, Digits)
  }

  /** The string a UI-pattern match spells out. */
  function UiText(g: UiGroups): string {
    "F" + (g.floorDigits + ("-" + (g.typeName + ("-R" + (g.rowDigits + ("S" + g.spotDigits))))))
  }

  /** The string an internal-pattern match spells out. */
  function InternalText(g: InternalGroups): string {
    "F" + (g.floorDigits + ("-R" + (g.rowDigits + ("-S" + g.spotDigits))))
  }

  /**
   * `Pattern.compile("F(\\d+)-([A-Za-z]+)-R(\\d+)S(\\d+)").matcher(s).matches()`
   * together with its groups. Every group's class excludes the delimiter that
   * follows it, so the match, when there is one, is unique.
   */
  function MatchUi(s: string): (r: Option<UiGroups>)
    ensures r.Some? ==> WellFormedUi(r.value) && UiText(r.value) == s
  {
    match DropLiteral(s, "F")
    case None => None
    case Some(a) =>
      var (fd, a1) := TakeRun(a, Digits);
      if |fd| == 0 then None else
      match DropLiteral(a1, "-")
      case None => None
      case Some(b) =>
        var (tn, b1) := TakeRun(b, Letters);
        if |tn| == 0 then None else
        match DropLiteral(b1, "-R")
        case None => None
        case Some(c) =>
          var (rd, c1) := TakeRun(c, Digits);
          if |rd| == 0 then None else
          match DropLiteral(c1, "S")
          case None => None
          case Some(d) =>
            if IsRun(d, Digits) then Some(UiGroups(fd, tn, rd, d)) else None
  }

  /** `Pattern.compile("F(\\d+)-R(\\d+)-S(\\d+)").matcher(s).matches()` together with its groups. */
  function MatchInternal(s: string): (r: Option<InternalGroups>)
    ensures r.Some? ==> WellFormedInternal(r.value) && InternalText(r.value) == s
  {
    match DropLiteral(s, "F")
    case None => None
    case Some(a) =>
      var (fd, a1) := TakeRun(a, Digits);
      if |fd| == 0 then None else
      match DropLiteral(a1, "-R")
      case None => None
      case Some(b) =>
        var (rd, b1) := TakeRun(b, Digits);
        if |rd| == 0 then None else
        match DropLiteral(b1, "-S")
        case None => None
        case Some(c) =>
          if IsRun(c, Digits) then Some(InternalGroups(fd, rd, c)) else None
  }

  /** Every string of the UI pattern's language is recognised, with its own groups. */
  lemma MatchUiComplete(g: UiGroups)
    requires WellFormedUi(g)
    ensures MatchUi(UiText(g)) == Some(g)
  {
    var d := g.spotDigits;
    var c1 := "S" + d;
    var c := g.rowDigits + c1;
    var b1 := "-R" + c;
    var b := g.typeName + b1;
    var a1 := "-" + b;
    var a := g.floorDigits + a1;
    assert UiText(g) == "F" + a;
    DropLiteralOfConcat("F", a);
    TakeRunOfConcat(g.floorDigits, a1, Digits);
    DropLiteralOfConcat("-", b);
    TakeRunOfConcat(g.typeName, b1, Letters);
    DropLiteralOfConcat("-R", c);
    TakeRunOfConcat(g.rowDigits, c1, Digits);
    DropLiteralOfConcat("S", d);
  }

  /** Every string of the internal pattern's language is recognised, with its own groups. */
  lemma MatchInternalComplete(g: InternalGroups)
    requires WellFormedInternal(g)
    ensures MatchInternal(InternalText(g)) == Some(g)
  {
    var c := g.spotDigits;
    var b1 := "-S" + c;
    var b := g.rowDigits + b1;
    var a1 := "-R" + b;
    var a := g.floorDigits + a1;
    assert InternalText(g) == "F" + a;
    DropLiteralOfConcat("F", a);
    TakeRunOfConcat(g.floorDigits, a1, Digits);
    DropLiteralOfConcat("-R", b);
    TakeRunOfConcat(g.rowDigits, b1, Digits);
    DropLiteralOfConcat("-S", c);
  }

  /**
   * No internal id matches the UI pattern: the letter group would be the
   * single 'R', which is followed by a digit instead of "-R".
   */
  lemma PatternsDisjoint(g: InternalGroups)
    requires WellFormedInternal(g)
    ensures MatchUi(InternalText(g)).None?
  {
    var tail := g.rowDigits + ("-S" + g.spotDigits);
    var a1 := "-R" + tail;
    DropLiteralOfConcat("F", g.floorDigits + a1);
    TakeRunOfConcat(g.floorDigits, a1, Digits);
    assert a1 == "-" + ("R" + tail);
    DropLiteralOfConcat("-", "R" + tail);
    assert InClass(tail[0], Digits);
    TakeRunOfConcat("R", tail, Letters);
  }

  // ---------------------------------------------------------------------------
  // parseSpotId and the public conversions
  // ---------------------------------------------------------------------------

  /** `SpotIdParts`: the decoded floor, row and spot numbers and the type name. */
  datatype SpotIdParts = SpotIdParts(floor: nat, row: nat, spot: nat, typeName: string)

  function DigitsValue(s: string): nat
    requires AllInClass(s, Digits)
  {
    assert AllDigits(s) by {
      forall i | 0 <= i < |s| ensures IsDigit(s[i]) {
        assert InClass(s[i], Digits);
      }
    }
    ParseNat(s)
  }

  /**
   * `parseSpotId`: the UI pattern is tried first and supplies its own type;
   * the internal pattern takes the fallback type (`null` becomes ""); the
   * empty string and anything else give `null`.
   */
  function ParseSpotId(spotId: string, fallbackType: Option<string>): (r: Option<SpotIdParts>)
    ensures |spotId| == 0 ==> r.None?
    ensures r.None? <==> MatchUi(spotId).None? && MatchInternal(spotId).None?
  {
    if |spotId| == 0 then None
    else
      match MatchUi(spotId)
      case Some(g) =>
        Some(SpotIdParts(DigitsValue(g.floorDigits), DigitsValue(g.rowDigits), DigitsValue(g.spotDigits), g.typeName))
      case None =>
        match MatchInternal(spotId)
        case Some(g) =>
          Some(SpotIdParts(DigitsValue(g.floorDigits), DigitsValue(g.rowDigits), DigitsValue(g.spotDigits),
                           fallbackType.GetOr("")))
        case None => None
  }

  /** `toUiSpotId(spotId, type)`: re-spell a recognised id in UI form, pass anything else through. */
  function ToUiSpotId(spotId: string, typeName: string): string {
    match ParseSpotId(spotId, Some(typeName))
    case None => spotId
    case Some(p) => FormatUiSpotId(p.floor, p.typeName, p.row, p.spot)
  }

  /** `toInternalSpotId(spotId)`: re-spell a recognised id in internal form, pass anything else through. */
  function ToInternalSpotId(spotId: string): string {
    match ParseSpotId(spotId, None)
    case None => spotId
    case Some(p) => FormatSpotId(p.floor, p.row, p.spot)
  }

  /** `extractType(spotId)`: the type group of a UI id, "" otherwise. */
  function ExtractType(spotId: string): string {
    match ParseSpotId(spotId, None)
    case None => ""
    case Some(p) => p.typeName
  }

  /** `extractFloor(spotId)`: the floor number of a recognised id, 1 otherwise. */
  function ExtractFloor(spotId: string): int {
    match ParseSpotId(spotId, None)
    case None => 1
    case Some(p) => p.floor
  }

  // ---------------------------------------------------------------------------
  // Round trips
  // ---------------------------------------------------------------------------

  lemma DigitsOfNat(n: nat)
    ensures AllInClass(NatToString(n), Digits) && DigitsValue(NatToString(n)) == n
  {
    ParseNatOfNatToString(n);
  }

  lemma DigitsOfPad2(n: nat)
    ensures |Pad2(n)| > 0 && AllInClass(Pad2(n), Digits) && DigitsValue(Pad2(n)) == n
  {
  }

  /** An internal id built from non-negative numbers decodes to those numbers and the fallback type. */
  lemma ParseFormatSpotId(floor: nat, row: nat, spot: nat, fallbackType: Option<string>)
    ensures ParseSpotId(FormatSpotId(floor, row, spot), fallbackType)
         == Some(SpotIdParts(floor, row, spot, fallbackType.GetOr("")))
  {
    var g := InternalGroups(NatToString(floor), NatToString(row), Pad2(spot));
    DigitsOfNat(floor);
    DigitsOfNat(row);
    DigitsOfPad2(spot);
    assert InternalText(g) == FormatSpotId(floor, row, spot);
    MatchInternalComplete(g);
    PatternsDisjoint(g);
  }

  /** A UI id built from non-negative numbers and a letter type decodes to exactly those parts. */
  lemma ParseFormatUiSpotId(floor: nat, typeName: string, row: nat, spot: nat, fallbackType: Option<string>)
    requires |typeName| > 0 && AllInClass(typeName, Letters)
    ensures ParseSpotId(FormatUiSpotId(floor, typeName, row, spot), fallbackType)
         == Some(SpotIdParts(floor, row, spot, typeName))
  {
    var g := UiGroups(NatToString(floor), typeName, NatToString(row), Pad2(spot));
    DigitsOfNat(floor);
    DigitsOfNat(row);
    DigitsOfPad2(spot);
    assert UiText(g) == FormatUiSpotId(floor, typeName, row, spot);
    MatchUiComplete(g);
  }

  /**
   * Converting an internal id to the UI form and back gives the original id,
   * and the UI form carries the given type.
   */
  lemma SpotIdRoundTrip(floor: nat, row: nat, spot: nat, typeName: string)
    requires |typeName| > 0 && AllInClass(typeName, Letters)
    ensures ToUiSpotId(FormatSpotId(floor, row, spot), typeName) == FormatUiSpotId(floor, typeName, row, spot)
    ensures ToInternalSpotId(ToUiSpotId(FormatSpotId(floor, row, spot), typeName)) == FormatSpotId(floor, row, spot)
    ensures ExtractType(ToUiSpotId(FormatSpotId(floor, row, spot), typeName)) == typeName
    ensures ExtractFloor(ToUiSpotId(FormatSpotId(floor, row, spot), typeName)) == floor
  {
    ParseFormatSpotId(floor, row, spot, Some(typeName));
    ParseFormatUiSpotId(floor, typeName, row, spot, None);
  }

  /** An internal id carries no type, and its floor is decoded. */
  lemma InternalIdFields(floor: nat, row: nat, spot: nat)
    ensures ExtractType(FormatSpotId(floor, row, spot)) == ""
    ensures ExtractFloor(FormatSpotId(floor, row, spot)) == floor
    ensures ToInternalSpotId(FormatSpotId(floor, row, spot)) == FormatSpotId(floor, row, spot)
  {
    ParseFormatSpotId(floor, row, spot, None);
  }

  /** A UI id keeps its own type: the type handed to `toUiSpotId` is ignored. */
  lemma UiIdKeepsItsType(floor: nat, typeName: string, row: nat, spot: nat, other: string)
    requires |typeName| > 0 && AllInClass(typeName, Letters)
    ensures ToUiSpotId(FormatUiSpotId(floor, typeName, row, spot), other) == FormatUiSpotId(floor, typeName, row, spot)
  {
    ParseFormatUiSpotId(floor, typeName, row, spot, Some(other));
  }

  /** Ids matching neither pattern pass through unchanged and decode to the defaults. */
  lemma UnrecognisedIdPassesThrough(spotId: string, typeName: string)
    requires MatchUi(spotId).None? && MatchInternal(spotId).None?
    ensures ToUiSpotId(spotId, typeName) == spotId
    ensures ToInternalSpotId(spotId) == spotId
    ensures ExtractType(spotId) == ""
    ensures ExtractFloor(spotId) == 1
  {
  }

  /** Normalising to the internal form is idempotent on every string. */
  lemma ToInternalIdempotent(spotId: string)
    ensures ToInternalSpotId(ToInternalSpotId(spotId)) == ToInternalSpotId(spotId)
  {
    match ParseSpotId(spotId, None)
    case None =>
    case Some(p) => InternalIdFields(p.floor, p.row, p.spot);
  }

  /** Distinct non-negative coordinates give distinct internal ids. */
  lemma FormatSpotIdInjective(f1: nat, r1: nat, s1: nat, f2: nat, r2: nat, s2: nat)
    requires FormatSpotId(f1, r1, s1) == FormatSpotId(f2, r2, s2)
    ensures f1 == f2 && r1 == r2 && s1 == s2
  {
    ParseFormatSpotId(f1, r1, s1, None);
    ParseFormatSpotId(f2, r2, s2, None);
  }

  lemma OneDigit(d: nat)
    requires d < 10
    ensures IntToString(d) == NatToString(d) == [DigitChar(d)]
    ensures Pad2(d) == ['0', DigitChar(d)]
  {
  }

  lemma FirstReservedIdSpellings()
    ensures FormatSpotId(1, 1, 1) == "F1-R1-S01"
    ensures FormatUiSpotId(1, "Reserved", 1, 1) == "F1-Reserved-R1S01"
    ensures IsRun("Reserved", Letters)
  {
    OneDigit(1);
  }

  /** The first Reserved spot's id converts between its two spellings. */
  lemma SampleIds()
    ensures ToUiSpotId("F1-R1-S01", "Reserved") == "F1-Reserved-R1S01"
    ensures ToInternalSpotId("F1-Reserved-R1S01") == "F1-R1-S01"
    ensures ExtractType("F1-Reserved-R1S01") == "Reserved"
    ensures ExtractType("F1-R1-S01") == ""
  {
    FirstReservedIdSpellings();
    SpotIdRoundTrip(1, 1, 1, "Reserved");
    InternalIdFields(1, 1, 1);
  }
}
