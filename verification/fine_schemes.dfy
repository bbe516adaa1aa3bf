/**
 * The fine-scheme settings of `UIDataManager`: the current scheme, the
 * append-only activation history (the `fine_scheme_history` table as a
 * sequence in insertion order), the scheme active at a given entry time, and
 * the scheme-name-to-strategy map. Timestamps in the history are whole seconds.
 */
module FineSchemes {
  import opened Wrappers
  import opened Text
  import opened Fines

  const SchemeFixed: string := "Option A (Fixed)"
  const SchemeProgressive: string := "Option B (Progressive)"
  const SchemeHourly: string := "Option C (Hourly)"

  /** The scheme used when the history has no record early enough. */
  const DefaultScheme: string := SchemeFixed

  /** `getFineStrategyByName` (and `getFineStrategy` on the current name): exact names, anything else is Fixed. */
  function StrategyByName(schemeName: string): (s: FineStrategy)
    ensures s == ProgressiveFine <==> schemeName == SchemeProgressive
    ensures s == HourlyFine <==> schemeName == SchemeHourly
  {
    if schemeName == SchemeFixed then FixedFine
    else if schemeName == SchemeProgressive then ProgressiveFine
    else if schemeName == SchemeHourly then HourlyFine
    else FixedFine
  }

  /** The name each strategy is selected by. */
  function SchemeName(s: FineStrategy): string {
    match s
    case FixedFine => SchemeFixed
    case ProgressiveFine => SchemeProgressive
    case HourlyFine => SchemeHourly
  }

  lemma SchemeNameRoundTrip(s: FineStrategy)
    ensures StrategyByName(SchemeName(s)) == s
  {
  }

  /** Unknown names, including other spellings, fall back to the fixed fine. */
  lemma UnknownSchemeIsFixed(schemeName: string)
    requires schemeName != SchemeProgressive && schemeName != SchemeHourly
    ensures StrategyByName(schemeName) == FixedFine
  {
  }

  /** One row of the history: which scheme was activated, and when (seconds). */
  datatype Activation = Activation(schemeName: string, activatedAt: int)

  /**
   * The row `ORDER BY activated_at DESC LIMIT 1` picks among rows activated
   * at or before `t`: the latest one; among rows with equal times, the one
   * inserted last.
   */
  function LatestAtOrBefore(history: seq<Activation>, t: int): (r: Option<nat>)
    ensures r.Some? ==> r.value < |history| && history[r.value].activatedAt <= t
    ensures r.Some? ==> forall j :: 0 <= j < |history| && history[j].activatedAt <= t ==> history[j].activatedAt <= history[r.value].activatedAt
    ensures r.Some? ==> forall j :: r.value < j < |history| ==> history[j].activatedAt > t || history[j].activatedAt < history[r.value].activatedAt
    ensures r.None? <==> forall j :: 0 <= j < |history| ==> history[j].activatedAt > t
    decreases |history|
  {
    if |history| == 0 then None
    else
      var n := |history| - 1;
      var earlier := LatestAtOrBefore(history[..n], t);
      assert forall j :: 0 <= j < n ==> history[..n][j] == history[j];
      var last := history[n];
      if last.activatedAt <= t && (earlier.None? || history[earlier.value].activatedAt <= last.activatedAt) then Some(n)
      else earlier
  }

  /**
   * Row `k` is the one the query returns for time `t`: activated at or before
   * `t`, no qualifying row later than it, and no qualifying row after it in
   * the table with the same time.
   */
  predicate IsLatestAtOrBefore(history: seq<Activation>, t: int, k: int) {
    0 <= k < |history| && history[k].activatedAt <= t
    && (forall j :: 0 <= j < |history| && history[j].activatedAt <= t ==> history[j].activatedAt <= history[k].activatedAt)
    && (forall j :: k < j < |history| ==> history[j].activatedAt > t || history[j].activatedAt < history[k].activatedAt)
  }

  /** At most one row is the latest at or before a time. */
  lemma LatestUnique(history: seq<Activation>, t: int, k1: int, k2: int)
    requires IsLatestAtOrBefore(history, t, k1) && IsLatestAtOrBefore(history, t, k2)
    ensures k1 == k2
  {
  }

  /** Java's `entryMillis / 1000`: whole seconds, truncated toward zero. */
  function EntrySeconds(entryMillis: int): (secs: int)
    ensures 0 <= entryMillis ==> 1000 * secs <= entryMillis < 1000 * secs + 1000
  {
    TruncDiv(entryMillis, 1000)
  }

  /**
   * `getFineSchemeAtTime`: the scheme of the latest history row at or before
   * the entry second; the default scheme when there is none, or when the
   * entry second is negative (the database gives no timestamp for it).
   */
  function GetFineSchemeAtTime(history: seq<Activation>, entryMillis: int): (name: string)
    ensures EntrySeconds(entryMillis) < 0 ==> name == DefaultScheme
    ensures (forall j :: 0 <= j < |history| ==> history[j].activatedAt > EntrySeconds(entryMillis)) ==> name == DefaultScheme
    ensures EntrySeconds(entryMillis) >= 0 && (exists j :: 0 <= j < |history| && history[j].activatedAt <= EntrySeconds(entryMillis))
            ==> exists k :: IsLatestAtOrBefore(history, EntrySeconds(entryMillis), k) && name == history[k].schemeName
  {
    var secs := EntrySeconds(entryMillis);
    if secs < 0 then DefaultScheme
    else match LatestAtOrBefore(history, secs)
      case None => DefaultScheme
      case Some(k) =>
        assert IsLatestAtOrBefore(history, secs, k);
        history[k].schemeName
  }

  /** `calculateFineForParkingAtEntryTime`: the fine under the scheme active at entry; the plate is not used. */
  function CalculateFineAtEntryTime(history: seq<Activation>, hoursParked: int, entryMillis: int, plate: string): (fine: int)
    ensures fine >= 0
    ensures fine == 0 <==> hoursParked <= FreeHours
    ensures fine == CalculateFine(StrategyByName(GetFineSchemeAtTime(history, entryMillis)), hoursParked)
  {
    CalculateFine(StrategyByName(GetFineSchemeAtTime(history, entryMillis)), hoursParked)
  }

  /** The scheme state: the name in force now and the history of activations. */
  datatype FineSettings = FineSettings(currentScheme: string, history: seq<Activation>)

  /** `setCurrentFineScheme`: the name becomes current and an activation row is appended, stamped `now` (seconds). */
  function SetCurrentFineScheme(settings: FineSettings, scheme: string, now: int): (r: FineSettings)
    ensures r.currentScheme == scheme
    ensures |r.history| == |settings.history| + 1
    ensures r.history[..|settings.history|] == settings.history
    ensures r.history[|settings.history|] == Activation(scheme, now)
  {
    FineSettings(scheme, settings.history + [Activation(scheme, now)])
  }

  /** `calculateFineForParking`: the fine under the scheme in force now. */
  function CalculateFineForParking(settings: FineSettings, hoursParked: int): (fine: int)
    ensures fine >= 0
    ensures fine == 0 <==> hoursParked <= FreeHours
    ensures fine == CalculateFine(StrategyByName(settings.currentScheme), hoursParked)
  {
    CalculateFine(StrategyByName(settings.currentScheme), hoursParked)
  }

  /** Appending a row activated after the entry second leaves the answer for that entry as it was. */
  lemma {:induction false} LaterActivationKeepsPast(history: seq<Activation>, a: Activation, entryMillis: int)
    requires a.activatedAt > EntrySeconds(entryMillis)
    ensures GetFineSchemeAtTime(history + [a], entryMillis) == GetFineSchemeAtTime(history, entryMillis)
  {
    var h := history + [a];
    assert h[..|history|] == history;
  }

  /** A row activated no earlier than every other row decides every entry from its second on. */
  lemma {:induction false} NewestActivationWins(history: seq<Activation>, a: Activation, entryMillis: int)
    requires forall j :: 0 <= j < |history| ==> history[j].activatedAt <= a.activatedAt
    requires 0 <= a.activatedAt <= EntrySeconds(entryMillis)
    ensures GetFineSchemeAtTime(history + [a], entryMillis) == a.schemeName
  {
    var h := history + [a];
    assert h[..|history|] == history;
  }

  /**
   * Switching the scheme changes the fine for later entries only: a vehicle
   * that entered before the switch is fined as before, one entering at or after
   * it under the new scheme.
   */
  lemma SchemeSwitchIsNotRetroactive(settings: FineSettings, scheme: string, now: int, hoursParked: int, entryMillis: int, plate: string)
    requires forall j :: 0 <= j < |settings.history| ==> settings.history[j].activatedAt <= now
    ensures EntrySeconds(entryMillis) < now ==>
      CalculateFineAtEntryTime(SetCurrentFineScheme(settings, scheme, now).history, hoursParked, entryMillis, plate)
      == CalculateFineAtEntryTime(settings.history, hoursParked, entryMillis, plate)
    ensures 0 <= now <= EntrySeconds(entryMillis) ==>
      CalculateFineAtEntryTime(SetCurrentFineScheme(settings, scheme, now).history, hoursParked, entryMillis, plate)
      == CalculateFine(StrategyByName(scheme), hoursParked)
  {
    if EntrySeconds(entryMillis) < now {
      LaterActivationKeepsPast(settings.history, Activation(scheme, now), entryMillis);
    }
    if 0 <= now <= EntrySeconds(entryMillis) {
      NewestActivationWins(settings.history, Activation(scheme, now), entryMillis);
    }
  }

  /** With no history, every entry is fined under the fixed scheme. */
  lemma EmptyHistoryUsesFixed(hoursParked: int, entryMillis: int, plate: string)
    ensures CalculateFineAtEntryTime([], hoursParked, entryMillis, plate) == CalculateFine(FixedFine, hoursParked)
  {
  }

  /**
   * Right after a switch, the scheme in force now and the scheme recorded for
   * an entry at or after the switch agree, so both fines coincide.
   */
  lemma CurrentAgreesWithNewEntries(settings: FineSettings, scheme: string, now: int, hoursParked: int, entryMillis: int, plate: string)
    requires forall j :: 0 <= j < |settings.history| ==> settings.history[j].activatedAt <= now
    requires 0 <= now <= EntrySeconds(entryMillis)
    ensures CalculateFineForParking(SetCurrentFineScheme(settings, scheme, now), hoursParked)
         == CalculateFineAtEntryTime(SetCurrentFineScheme(settings, scheme, now).history, hoursParked, entryMillis, plate)
  {
    SchemeSwitchIsNotRetroactive(settings, scheme, now, hoursParked, entryMillis, plate);
  }
}
