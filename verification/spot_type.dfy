/** The four spot classes and their display names (`SpotType`). */
module SpotTypes {
  import opened Wrappers

  datatype SpotType = Compact | Regular | Handicapped | Reserved

  /** The name shown to users and stored as a spot's type string. */
  function DisplayName(t: SpotType): string {
    match t
    case Compact => "Compact"
    case Regular => "Regular"
    case Handicapped => "Handicapped"
    case Reserved => "Reserved"
  }

  /** The display names, in declaration order. */
  const DisplayNames: seq<string> := ["Compact", "Regular", "Handicapped", "Reserved"]

  /**
   * Exact, case-sensitive inverse of `DisplayName`; `null` and every other
   * string give `null`.
   */
  function FromDisplayName(name: Option<string>): (r: Option<SpotType>)
    ensures name.None? ==> r.None?
    ensures r.Some? <==> name.Some? && name.value in DisplayNames
    ensures r.Some? ==> DisplayName(r.value) == name.value
  {
    match name
    case None => None
    case Some(n) =>
      if n == "Compact" then Some(Compact)
      else if n == "Regular" then Some(Regular)
      else if n == "Handicapped" then Some(Handicapped)
      else if n == "Reserved" then Some(Reserved)
      else None
  }

  /** Every spot class survives the trip through its display name. */
  lemma DisplayNameRoundTrip(t: SpotType)
    ensures FromDisplayName(Some(DisplayName(t))) == Some(t)
  {
  }

  /** Distinct classes have distinct display names. */
  lemma DisplayNameInjective(a: SpotType, b: SpotType)
    requires DisplayName(a) == DisplayName(b)
    ensures a == b
  {
    DisplayNameRoundTrip(a);
    DisplayNameRoundTrip(b);
  }

  /** Lower-case spellings are not recognised. */
  lemma FromDisplayNameIsCaseSensitive()
    ensures FromDisplayName(Some("compact")).None?
    ensures FromDisplayName(Some("RESERVED")).None?
  {
  }
}
