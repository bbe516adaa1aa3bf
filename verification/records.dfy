/**
 * The plate-keyed records of `UIDataManager`: parked vehicles
 * (`parked_vehicles`) and unpaid fines (`unpaid_fines`) as maps keyed by the
 * normalised plate, and the payments log (`payments`) as a sequence.
 */
module Records {
  import opened Wrappers
  import opened Text

  // ---------------------------------------------------------------------------
  // Plates
  // ---------------------------------------------------------------------------

  /** `replaceAll("\\s+", "")`: every whitespace character dropped, the rest kept in order. */
  function RemoveWhitespace(s: string): (r: string)
    ensures |r| <= |s|
    ensures forall i :: 0 <= i < |r| ==> !IsWhitespace(r[i])
    ensures (forall i :: 0 <= i < |s| ==> !IsWhitespace(s[i])) ==> r == s
    decreases |s|
  {
    if |s| == 0 then []
    else if IsWhitespace(s[0]) then RemoveWhitespace(s[1..])
    else [s[0]] + RemoveWhitespace(s[1..])
  }

  predicate NoLowerCase(s: string) {
    forall i :: 0 <= i < |s| ==> !('a' <= s[i] <= 'z')
  }

  /** Upper-casing keeps whitespace where it is and leaves no lower-case letter. */
  lemma ToUpperFacts(s: string)
    ensures NoLowerCase(ToUpper(s))
    ensures forall i :: 0 <= i < |s| ==> (IsWhitespace(ToUpper(s)[i]) <==> IsWhitespace(s[i]))
    ensures NoLowerCase(s) ==> ToUpper(s) == s
  {
  }

  /** `normalizePlate`: `null` becomes the empty plate; otherwise whitespace is removed and letters upper-cased. */
  function NormalizePlate(plate: Option<string>): (r: string)
    ensures plate.None? ==> r == ""
    ensures forall i :: 0 <= i < |r| ==> !IsWhitespace(r[i])
    ensures NoLowerCase(r)
    ensures plate.Some? ==> |r| <= |plate.value|
  {
    match plate
    case None => ""
    case Some(p) =>
      var stripped := RemoveWhitespace(p);
      ToUpperFacts(stripped);
      ToUpper(stripped)
  }

  /** Normalising twice is normalising once. */
  lemma NormalizeIdempotent(plate: Option<string>)
    ensures NormalizePlate(Some(NormalizePlate(plate))) == NormalizePlate(plate)
  {
    var n := NormalizePlate(plate);
    assert RemoveWhitespace(n) == n;
    ToUpperFacts(n);
  }

  /** One character: whitespace vanishes, anything else stays. */
  lemma RemoveWhitespaceSingle(c: char)
    ensures RemoveWhitespace([c]) == if IsWhitespace(c) then "" else [c]
  {
    assert [c][1..] == [];
  }

  /** Whitespace removal works piece by piece: it distributes over concatenation. */
  lemma {:induction false} RemoveWhitespaceConcat(a: string, b: string)
    ensures RemoveWhitespace(a + b) == RemoveWhitespace(a) + RemoveWhitespace(b)
    decreases |a|
  {
    if |a| == 0 {
      assert a + b == b;
    } else {
      assert (a + b)[0] == a[0];
      assert (a + b)[1..] == a[1..] + b;
      RemoveWhitespaceConcat(a[1..], b);
    }
  }

  /** Upper-casing distributes over concatenation. */
  lemma ToUpperConcat(a: string, b: string)
    ensures ToUpper(a + b) == ToUpper(a) + ToUpper(b)
  {
  }

  /** One character of a plate: whitespace vanishes, anything else is upper-cased. */
  lemma NormalizePlateSingle(c: char)
    ensures NormalizePlate(Some([c])) == if IsWhitespace(c) then "" else [ToUpperChar(c)]
  {
    RemoveWhitespaceSingle(c);
  }

  /**
   * Normalisation distributes over concatenation; with `NormalizePlateSingle`
   * this fixes the normalised plate character by character.
   */
  lemma NormalizePlateConcat(a: string, b: string)
    ensures NormalizePlate(Some(a + b)) == NormalizePlate(Some(a)) + NormalizePlate(Some(b))
  {
    RemoveWhitespaceConcat(a, b);
    ToUpperConcat(RemoveWhitespace(a), RemoveWhitespace(b));
  }

  /** Spacing and letter case do not tell plates apart. */
  lemma NormalizeExamples()
    ensures NormalizePlate(Some(" a 1")) == "A1"
    ensures NormalizePlate(None) == ""
  {
    assert RemoveWhitespace(" a 1") == "a1";
    assert ToUpper("a1") == "A1";
  }

  /** A store is well keyed when every key is already a normalised plate. */
  predicate WellKeyed<V>(store: map<string, V>) {
    forall k :: k in store ==> NormalizePlate(Some(k)) == k
  }

  // ---------------------------------------------------------------------------
  // Parked vehicles
  // ---------------------------------------------------------------------------

  /** One `parked_vehicles` row, without its key. The spot is `None` for a `null` spot. */
  datatype ParkedRecord = ParkedRecord(vehicleType: string, entryTime: string, parkingSpot: Option<string>, entryMillis: int)

  type ParkedStore = map<string, ParkedRecord>

  /** `addParkedVehicle`: insert, or overwrite the row of the same normalised plate. */
  function AddParkedVehicle(store: ParkedStore, plate: Option<string>, rec: ParkedRecord): (r: ParkedStore)
    ensures NormalizePlate(plate) in r && r[NormalizePlate(plate)] == rec
    ensures r.Keys == store.Keys + {NormalizePlate(plate)}
    ensures forall k :: k in store && k != NormalizePlate(plate) ==> r[k] == store[k]
    ensures WellKeyed(store) ==> WellKeyed(r)
  {
    NormalizeIdempotent(plate);
    store[NormalizePlate(plate) := rec]
  }

  /** `removeParkedVehicle`: the row of the normalised plate goes; nothing else changes. */
  function RemoveParkedVehicle(store: ParkedStore, plate: Option<string>): (r: ParkedStore)
    ensures r.Keys == store.Keys - {NormalizePlate(plate)}
    ensures forall k :: k in r ==> r[k] == store[k]
    ensures NormalizePlate(plate) !in store ==> r == store
    ensures WellKeyed(store) ==> WellKeyed(r)
  {
    store - {NormalizePlate(plate)}
  }

  /** Adding again under another spelling of the same plate replaces the first row. */
  lemma AddOverwrites(store: ParkedStore, p1: Option<string>, p2: Option<string>, r1: ParkedRecord, r2: ParkedRecord)
    requires NormalizePlate(p1) == NormalizePlate(p2)
    ensures AddParkedVehicle(AddParkedVehicle(store, p1, r1), p2, r2) == AddParkedVehicle(store, p2, r2)
  {
  }

  /** Adding then removing the same plate leaves no row for it and the other rows untouched. */
  lemma AddThenRemove(store: ParkedStore, plate: Option<string>, rec: ParkedRecord)
    ensures RemoveParkedVehicle(AddParkedVehicle(store, plate, rec), plate) == RemoveParkedVehicle(store, plate)
  {
  }

  /** `getOccupiedSpotIds`: every non-empty spot named by a parked vehicle. */
  function OccupiedSpotIds(store: ParkedStore): (r: set<string>)
    ensures forall s :: s in r <==> |s| > 0 && exists k :: k in store && store[k].parkingSpot == Some(s)
  {
    set k | k in store && store[k].parkingSpot.Some? && |store[k].parkingSpot.value| > 0 :: store[k].parkingSpot.value
  }

  /** A vehicle parked with a spot makes that spot occupied. */
  lemma ParkedSpotIsOccupied(store: ParkedStore, plate: Option<string>, rec: ParkedRecord)
    requires rec.parkingSpot.Some? && |rec.parkingSpot.value| > 0
    ensures rec.parkingSpot.value in OccupiedSpotIds(AddParkedVehicle(store, plate, rec))
  {
    var r := AddParkedVehicle(store, plate, rec);
    assert r[NormalizePlate(plate)].parkingSpot == rec.parkingSpot;
  }

  /** Removing the only vehicle on a spot frees that spot. */
  lemma RemovalFreesSpot(store: ParkedStore, plate: Option<string>, spot: string)
    requires forall k :: k in store && k != NormalizePlate(plate) ==> store[k].parkingSpot != Some(spot)
    ensures spot !in OccupiedSpotIds(RemoveParkedVehicle(store, plate))
  {
  }

  // ---------------------------------------------------------------------------
  // Unpaid fines and payments
  // ---------------------------------------------------------------------------

  /** The `unpaid_fines` table: outstanding amount per normalised plate. */
  type FineLedger = map<string, int>

  /** One `payments` row. */
  datatype PaymentRow = PaymentRow(licensePlate: string, amount: int, paymentMethod: string, parkingFee: int, fineAmount: int)

  /** Outstanding fines and the payments log together. */
  datatype Accounts = Accounts(unpaid: FineLedger, payments: seq<PaymentRow>)

  /** `getUnpaidFine`: the plate's outstanding amount, 0 when it has no row. */
  function GetUnpaidFine(ledger: FineLedger, plate: Option<string>): (amount: int)
    ensures NormalizePlate(plate) !in ledger ==> amount == 0
    ensures NormalizePlate(plate) in ledger ==> amount == ledger[NormalizePlate(plate)]
  {
    var norm := NormalizePlate(plate);
    if norm in ledger then ledger[norm] else 0
  }

  /** `issueFine`: a new row holding `amount`, or `amount` added to the existing row; other plates untouched. */
  function IssueFine(ledger: FineLedger, plate: Option<string>, amount: int): (r: FineLedger)
    ensures GetUnpaidFine(r, plate) == GetUnpaidFine(ledger, plate) + amount
    ensures NormalizePlate(plate) in r
    ensures forall k :: k != NormalizePlate(plate) ==> (k in r <==> k in ledger)
    ensures forall k :: k in ledger && k != NormalizePlate(plate) ==> r[k] == ledger[k]
  {
    var norm := NormalizePlate(plate);
    if norm in ledger then ledger[norm := ledger[norm] + amount] else ledger[norm := amount]
  }

  /**
   * `recordPayment`: logs the payment, then lowers the plate's outstanding fine
   * by `fineAmount`, never below 0; a row that reaches 0 is deleted. The
   * lowering is an `UPDATE`, so a plate without a row never gains one.
   */
  function RecordPayment(accounts: Accounts, plate: Option<string>, amount: int, parkingFee: int,
                         fineAmount: int, paymentMethod: string): (r: Accounts)
    ensures NormalizePlate(plate) in accounts.unpaid
            ==> GetUnpaidFine(r.unpaid, plate) == Max0(GetUnpaidFine(accounts.unpaid, plate) - fineAmount)
    ensures NormalizePlate(plate) !in accounts.unpaid ==> GetUnpaidFine(r.unpaid, plate) == 0
    ensures NormalizePlate(plate) in r.unpaid
            <==> NormalizePlate(plate) in accounts.unpaid && GetUnpaidFine(accounts.unpaid, plate) - fineAmount > 0
    ensures forall k :: k != NormalizePlate(plate) ==> (k in r.unpaid <==> k in accounts.unpaid)
    ensures forall k :: k in accounts.unpaid && k != NormalizePlate(plate) ==> r.unpaid[k] == accounts.unpaid[k]
    ensures r.payments == accounts.payments + [PaymentRow(NormalizePlate(plate), amount, paymentMethod, parkingFee, fineAmount)]
  {
    var norm := NormalizePlate(plate);
    NormalizeIdempotent(plate);
    var remaining := Max0(GetUnpaidFine(accounts.unpaid, Some(norm)) - fineAmount);
    var row := PaymentRow(norm, amount, paymentMethod, parkingFee, fineAmount);
    if remaining <= 0 then Accounts(accounts.unpaid - {norm}, accounts.payments + [row])
    else if norm in accounts.unpaid then Accounts(accounts.unpaid[norm := remaining], accounts.payments + [row])
    else Accounts(accounts.unpaid, accounts.payments + [row])
  }

  /** `Math.max(0.0, x)`. */
  function Max0(x: int): (r: int)
    ensures r >= 0 && r >= x && (r == 0 || r == x)
  {
    if x < 0 then 0 else x
  }

  /** Every outstanding amount is positive or zero. */
  predicate NonNegative(ledger: FineLedger) {
    forall k :: k in ledger ==> ledger[k] >= 0
  }

  /** Issuing non-negative fines and recording payments keep every balance non-negative. */
  lemma BalancesStayNonNegative(accounts: Accounts, plate: Option<string>, amount: int, parkingFee: int,
                                fineAmount: int, paymentMethod: string, issued: int)
    requires NonNegative(accounts.unpaid) && issued >= 0
    ensures NonNegative(IssueFine(accounts.unpaid, plate, issued))
    ensures NonNegative(RecordPayment(accounts, plate, amount, parkingFee, fineAmount, paymentMethod).unpaid)
  {
    var r := RecordPayment(accounts, plate, amount, parkingFee, fineAmount, paymentMethod);
    forall k | k in r.unpaid
      ensures r.unpaid[k] >= 0
    {
      if k == NormalizePlate(plate) {
        assert r.unpaid[k] == GetUnpaidFine(r.unpaid, plate);
      }
    }
  }

  /** A payment with no fine part leaves a non-negative balance as it was. */
  lemma PaymentWithoutFineKeepsBalance(accounts: Accounts, plate: Option<string>, amount: int, parkingFee: int, paymentMethod: string)
    requires GetUnpaidFine(accounts.unpaid, plate) >= 0
    ensures GetUnpaidFine(RecordPayment(accounts, plate, amount, parkingFee, 0, paymentMethod).unpaid, plate)
         == GetUnpaidFine(accounts.unpaid, plate)
  {
  }

  /** Paying at least the outstanding amount clears the plate's row. */
  lemma FullPaymentClears(accounts: Accounts, plate: Option<string>, amount: int, parkingFee: int,
                          fineAmount: int, paymentMethod: string)
    requires fineAmount >= GetUnpaidFine(accounts.unpaid, plate)
    ensures NormalizePlate(plate) !in RecordPayment(accounts, plate, amount, parkingFee, fineAmount, paymentMethod).unpaid
    ensures GetUnpaidFine(RecordPayment(accounts, plate, amount, parkingFee, fineAmount, paymentMethod).unpaid, plate) == 0
  {
  }

  /** A fine of 150 issued to a plate with no record, then a payment of 50 towards it, leaves 100 outstanding. */
  lemma PartialPaymentScenario(accounts: Accounts, plate: Option<string>, paymentMethod: string)
    requires GetUnpaidFine(accounts.unpaid, plate) == 0
    ensures var issued := Accounts(IssueFine(accounts.unpaid, plate, 150), accounts.payments);
            GetUnpaidFine(RecordPayment(issued, plate, 50, 0, 50, paymentMethod).unpaid, plate) == 100
  {
  }

  /** Fines to one plate never change another plate's balance. */
  lemma PlatesAreIndependent(ledger: FineLedger, p: Option<string>, q: Option<string>, amount: int)
    requires NormalizePlate(p) != NormalizePlate(q)
    ensures GetUnpaidFine(IssueFine(ledger, p, amount), q) == GetUnpaidFine(ledger, q)
  {
  }
}
