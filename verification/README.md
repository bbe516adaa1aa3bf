# Car park allocation and billing, modelled in Dafny

This project models the allocation and billing core of a Java multi-floor car
park. That core has five parts:

- **Classification.** The four spot types (Compact, Regular, Handicapped,
  Reserved), the four vehicle classes, each class's `canParkIn` table, and the
  lot's VIP rule for Reserved spots.
- **The facility.** The default layout of five floors of thirty spots. Spot ids
  have two spellings, internal `F1-R1-S01` and customer-facing
  `F1-Reserved-R1S01`, with a parser and formatters between them. Spots are
  looked up by id.
- **Occupancy.** The park/remove state machine of a spot, the vacant spots of a
  floor, and the parked-vehicle table, keyed by normalised plate.
- **Billing.** Hour rounding, the ordered rate rules (free, card holder,
  standard table), the three overstay fine strategies (Fixed, Hourly,
  Progressive), and the misuse surcharge.
- **Fine schemes and unpaid fines.** The scheme in force at a vehicle's entry
  time comes from an append-only activation history. An unpaid-fine ledger is
  raised by fines and paid down by payments.

The customer screen's pure helpers are modelled too: the rate shown, the offered
parking types, the 30-row floor view, reading a spot type back from an id, the
duration text, and the pay-and-exit step.

Everything is a pure function over immutable values:

- Vehicles, spots, floors and the lot are datatypes.
- Database tables are Dafny maps and sequences:
  - `parked_vehicles` and `unpaid_fines` are maps keyed by normalised plate.
  - `payments` and `fine_scheme_history` are sequences in insertion order.
- Clock readings are parameters, in milliseconds.
- Card-holder and VIP lookups are boolean parameters.
- Money is in whole ringgit (`int`). Every rate, fine and surcharge in the code
  is a whole number.

Modules follow the source classes:

| module | models |
|---|---|
| `Text` | decimal digits, `%d`/`%02d`, Java division, ASCII case |
| `SpotTypes` | `SpotType` |
| `SpotIds` | the spot-id helpers of `ParkingSpot` |
| `Vehicles` | `Vehicle`, the four subclasses, `VehicleFactory` |
| `Spots` | `ParkingSpot`, its subclasses, `Floor` |
| `Fines` | the three `Fine` strategies |
| `Billing` | `Payment.calculateTotal` |
| `FineSchemes` | the scheme settings and history of `UIDataManager` |
| `Lots` | `ParkingLot` |
| `Records` | the plate-keyed tables of `UIDataManager` |
| `CustomerView` | the customer-screen helpers |

Java semantics are written out where they matter:

- `Duration.toMinutes` truncates toward zero.
- `/` on `long` truncates toward zero; Dafny's division is Euclidean.
- `Math.ceil(minutes / 60.0)` is an integer ceiling.
- `String.format("%02d")` pads to two digits.
- `equalsIgnoreCase` and `toUpperCase` fold ASCII letters only.
- `String.split("-")` drops trailing empty fields.
- `Matcher.matches` must match the whole string.

The regular expressions of `parseSpotId` become a deterministic matcher. It is
proved sound: a match reproduces the input. It is also proved complete: well-formed
groups are always found.

The model follows the code wherever the code and its comments or documentation
disagree:

- Progressive fines are 0 / 50 / 300 / 500. Line 16 of `ProgressiveFine` tests
  `> 48` a second time where `> 72` was described, so 49-72 hours already cost 300.
- The misuse surcharge in `Payment` is 50. The operator-issued fine elsewhere is 100.
- The second call in `PaymentTest`, with vehicle type "HANDICAPPED", costs 4
  and not the printed 0: the free rule needs the full label "Handicapped Vehicle".
- `Motorcycle.canParkIn` accepts Reserved spots, but `isSpotAllowed` refuses
  them. `ParkingSpot.park` applies no VIP rule at all.
- The customer screen quotes 0 for an unknown spot type; `Payment` charges 5.
- The customer screen rounds milliseconds up to hours; `Payment` first truncates
  to whole minutes. 60 min 30 s is 2 hours on the screen and 1 hour in `Payment`.
- The customer screen's `extractSpotType` returns the second `-`-separated field.
  For an internal id `F1-R1-S01` that field is "R1", not a spot type. The screen
  then prices that spot at the unknown-type rate, 0 without a card.
- The history query orders only by `activated_at`. The model breaks ties by
  letting the later insertion win.

## Model

| member | source | states |
|---|---|---|
| SpotTypes.FromDisplayName | src/SpotType.java:19-36 | null gives null. A name is recognised exactly when it is one of the four display names, and then it is that constant's display name |
| SpotTypes.DisplayNameRoundTrip | src/SpotType.java:4-36 | reading back a constant's display name gives the constant |
| SpotTypes.DisplayNameInjective | src/SpotType.java:6-13 | the four display names are distinct |
| SpotTypes.FromDisplayNameIsCaseSensitive | src/SpotType.java:24-35 | "compact" and "RESERVED" are not recognised |
| Text.ParseNatOfNatToString | src/ParkingLot/ParkingSpot.java:94-97 | parsing the decimal digits `%d` prints gives back the number |
| Text.IntToStringInjective | src/ParkingLot/ParkingSpot.java:52 | different numbers print differently |
| Text.Pad2 | src/ParkingLot/ParkingSpot.java:52 | `%02d` of a non-negative number has at least two digits and parses back to the number |
| Text.Pad2Exact | src/ParkingLot/ParkingSpot.java:52 | `%02d` prints 0..9 as "0" and the digit, and every other value exactly as `%d` does, with no leading zero from 10 on |
| Text.ToUpper | ui/UIDataManager.java:667 | every character is upper-cased in place and the length is kept |
| Text.TruncDiv | ui/CustomerUI.java:141 | Java's `/` for a positive divisor: the quotient truncated toward zero, for either sign of the dividend |
| SpotIds.FormatSpotId | src/ParkingLot/ParkingSpot.java:51-53 | `F<floor>-R<row>-S<spot, two digits>`; `ParseFormatSpotId` and `FormatSpotIdInjective` state that it parses back to its fields and that distinct fields give distinct ids |
| SpotIds.FormatUiSpotId | src/ParkingLot/ParkingSpot.java:64 | `F<floor>-<type>-R<row>S<spot, two digits>`; `ParseFormatUiSpotId` states that it parses back to its floor, type, row and spot |
| SpotIds.ToUiSpotId | src/ParkingLot/ParkingSpot.java:59-65 | an unrecognised id is returned as is, a recognised one is re-spelled in customer form; `SpotIdRoundTrip`, `UiIdKeepsItsType` and `UnrecognisedIdPassesThrough` state this per case |
| SpotIds.ToInternalSpotId | src/ParkingLot/ParkingSpot.java:67-73 | an unrecognised id is returned as is, a recognised one is re-spelled in internal form; `SpotIdRoundTrip`, `ToInternalIdempotent` and `UnrecognisedIdPassesThrough` state this per case |
| SpotIds.ExtractType | src/ParkingLot/ParkingSpot.java:75-78 | the type group of a customer id, "" for an internal or unrecognised id; `SpotIdRoundTrip`, `InternalIdFields` and `UnrecognisedIdPassesThrough` state this per case |
| SpotIds.ExtractFloor | src/ParkingLot/ParkingSpot.java:80-83 | the floor of a recognised id, 1 otherwise; `SpotIdRoundTrip`, `InternalIdFields` and `UnrecognisedIdPassesThrough` state this per case |
| SpotIds.MatchUi | src/ParkingLot/ParkingSpot.java:90-99 | a match of `F(\d+)-([A-Za-z]+)-R(\d+)S(\d+)` is well formed and spells exactly the input |
| SpotIds.MatchUiComplete | src/ParkingLot/ParkingSpot.java:91-93 | every well-formed customer-id text is matched, with its own groups |
| SpotIds.MatchInternal | src/ParkingLot/ParkingSpot.java:101-110 | a match of `F(\d+)-R(\d+)-S(\d+)` is well formed and spells exactly the input |
| SpotIds.MatchInternalComplete | src/ParkingLot/ParkingSpot.java:102-104 | every well-formed internal-id text is matched, with its own groups |
| SpotIds.PatternsDisjoint | src/ParkingLot/ParkingSpot.java:91-104 | no internal id matches the customer pattern, so the internal branch decides it |
| SpotIds.ParseSpotId | src/ParkingLot/ParkingSpot.java:85-113 | the empty id gives null; an id gives null exactly when it matches neither pattern |
| SpotIds.ParseFormatSpotId | src/ParkingLot/ParkingSpot.java:51-53 | a formatted internal id parses back to its floor, row and spot, with the fallback type (or "") |
| SpotIds.ParseFormatUiSpotId | src/ParkingLot/ParkingSpot.java:59-65 | a formatted customer id parses back to its floor, type, row and spot |
| SpotIds.SpotIdRoundTrip | src/ParkingLot/ParkingSpot.java:59-83 | an internal id converts to the customer id with the given letter type, and converts back to itself. The type and floor read back from it |
| SpotIds.InternalIdFields | src/ParkingLot/ParkingSpot.java:75-83 | an internal id has type "" and its own floor, and is already internal |
| SpotIds.UiIdKeepsItsType | src/ParkingLot/ParkingSpot.java:59-65 | converting a customer id to the customer spelling keeps its own type, whatever type is passed |
| SpotIds.UnrecognisedIdPassesThrough | src/ParkingLot/ParkingSpot.java:61-63 | an id matching neither pattern is returned unchanged by both conversions, with type "" and floor 1 |
| SpotIds.ToInternalIdempotent | src/ParkingLot/ParkingSpot.java:67-73 | converting to the internal spelling twice is converting once |
| SpotIds.FormatSpotIdInjective | src/ParkingLot/ParkingSpot.java:51-53 | distinct (floor, row, spot) triples give distinct internal ids |
| SpotIds.SampleIds | src/ParkingLot/ParkingSpot.java:90-108 | `F1-R1-S01` and `F1-Reserved-R1S01` convert into each other; their types are "Reserved" and "" |
| Vehicles.FromDisplayType | src/Vehicles/VehicleFactory.java:7-24 | a vehicle is made exactly for the four labels, of the labelled class, with the given plate and no exit time |
| Vehicles.FactoryRoundTrip | src/Vehicles/VehicleFactory.java:12-20 | each class's label makes a vehicle of that class |
| Vehicles.FactoryRejectsOtherSpellings | src/Vehicles/VehicleFactory.java:21-22 | "SUV", "HANDICAPPED" and "car" make no vehicle |
| Vehicles.CanParkIn | src/Vehicles/Motorcycle.java:12-16 | the four `canParkIn` overrides as one case-sensitive test on the type string; `CanParkInMatchesTable` and `CanParkInOnlyKnownNames` state which names each class accepts |
| Vehicles.HandicappedParksAnywhere | src/Vehicles/HandicappedVehicle.java:11-13 | a handicapped vehicle accepts a spot of any type string, known or not |
| Vehicles.CanParkInMatchesTable | src/Vehicles/Motorcycle.java:12-16 | on the four type names, each class's `canParkIn` is its table (Motorcycle: Compact and Reserved; Car: Compact, Regular and Reserved; SUV: Regular and Reserved; Handicapped: all) |
| Vehicles.CanParkInOnlyKnownNames | src/Vehicles/Car.java:11-15 | every class except Handicapped refuses a type string outside the four exact names |
| Vehicles.WholeMinutes | src/Management/Payment.java:21 | for a forward interval, the whole minutes it contains (truncated) |
| Vehicles.CeilHours | src/Vehicles/Vehicle.java:31-33 | the least whole number of hours covering the minutes, with no minimum |
| Vehicles.CeilHoursExamples | src/Vehicles/Vehicle.java:32-33 | 61 minutes is 2 hours, 60k minutes is k hours, 0 minutes is 0 hours |
| Vehicles.CalculateDuration | src/Vehicles/Vehicle.java:25-34 | before exit the hours cover the minutes up to now; after exit, up to the exit time |
| Vehicles.MarkExit | src/Vehicles/Vehicle.java:36-38 | plate, class and entry time are kept and the exit time is set |
| Vehicles.DurationFixedAfterExit | src/Vehicles/Vehicle.java:26-33 | once exited, the duration no longer depends on the current time |
| Spots.NewSpot | src/ParkingLot/ParkingSpot.java:12-18 | a new spot keeps the given id, has its class's name and rate, and is vacant with no occupant |
| Spots.SubclassConstants | src/ParkingLot/CompactSpot.java:4-6 | the four subclasses' names and rates: Compact 2, Regular 5, Handicapped 2, Reserved 10 |
| Spots.NewSpotAt | src/ParkingLot/ReservedSpot.java:8-10 | the location constructor's id is the formatted internal id and parses back to the location |
| Spots.Park | src/ParkingLot/ParkingSpot.java:20-36 | parking succeeds exactly on a vacant spot the vehicle's class accepts. A refusal changes nothing; a success records the vehicle and keeps id, type and rate |
| Spots.RemoveVehicle | src/ParkingLot/ParkingSpot.java:38-41 | the spot becomes vacant with no occupant and keeps id, type and rate |
| Spots.ParkKeepsConsistent | src/ParkingLot/ParkingSpot.java:20-41 | "occupied exactly when there is an occupant" survives park and remove |
| Spots.ParkThenRemove | src/ParkingLot/ParkingLotTest.java:94-97 | a successful park followed by remove restores the vacant spot |
| Spots.RemoveIdempotent | src/ParkingLot/ParkingSpot.java:38-41 | removing twice is removing once |
| Spots.SecondParkRefused | src/ParkingLot/ParkingSpot.java:22-24 | a second vehicle is refused by an occupied spot, which keeps the first |
| Spots.NewFloor | src/ParkingLot/Floor.java:10-13 | a new floor has the given id and no spots |
| Spots.AddSpot | src/ParkingLot/Floor.java:15-17 | the spot is appended; the earlier spots stay, in order |
| Spots.VacantMembers | src/ParkingLot/Floor.java:28-36 | a spot is listed as available exactly when it is on the floor and vacant |
| Spots.VacantConcat | src/ParkingLot/Floor.java:30-34 | the vacant spots of two runs of spots are those of the first, then those of the second, each in order |
| Spots.VacantExtremes | src/ParkingLot/Floor.java:28-36 | an all-vacant floor lists every spot; a full floor lists none |
| Spots.GetAvailableSpots | src/ParkingLot/Floor.java:28-36 | the loop returns the vacant spots in floor order; this is the filter that `VacantMembers` characterises |
| Fines.CalculateFine | src/Management/FixedFine.java:5-10 | every strategy's fine is non-negative, and zero exactly within the first 24 hours |
| Fines.FixedFineValues | src/Management/FixedFine.java:6-9 | Fixed gives only 0 or 50: 24 hours give 0 and 25 give 50 |
| Fines.HourlyFineValues | src/Management/HourlyFine.java:6-8 | Hourly is 20 per hour beyond 24; 27 hours give 60 |
| Fines.ProgressiveMatchesBands | src/Management/ProgressiveFine.java:14-17 | Progressive is 0 up to 24 hours, 50 up to 48, 300 up to 72, 500 beyond |
| Fines.ProgressiveFineValues | src/Management/ProgressiveFine.java:5-20 | Progressive takes only 0, 50, 300 and 500, at most 500: 48 give 50, 49 give 300, 72 give 300, 80 give 500 |
| Fines.FineMonotone | src/Management/HourlyFine.java:5-11 | under every strategy a longer stay is never fined less |
| Fines.HourlyStrictlyIncreasing | src/Management/HourlyFine.java:6-8 | beyond 24 hours, each further hour raises the hourly fine |
| Billing.StandardRate | src/Management/Payment.java:38-44 | an exact type name costs its spot class's rate; any other string costs the default |
| Billing.ResolveRate | src/Management/Payment.java:29-45 | the three rules in order: free for a card-holding "Handicapped Vehicle" in a Handicapped spot, otherwise 2 for any card holder, otherwise the standard table |
| Billing.StandardRateIsSpotRate | src/Management/Payment.java:38-44 | without a card each spot is charged the rate its constructor records |
| Billing.OkuNeverPaysMore | src/Management/Payment.java:29-35 | on the four types a card holder never pays more than a non-holder |
| Billing.FreeRuleNeedsFullLabel | src/Management/Payment.java:29 | "HANDICAPPED" and a missing vehicle type never earn the free rate; "handicapped vehicle" does |
| Billing.StayHours | src/Management/Payment.java:21-23 | the hours billed between entry and exit are at least 1; `ShortStayBillsOneHour` and `BilledHours` state the rounding |
| Billing.BilledHours | src/Management/Payment.java:22-23 | billed hours cover the minutes, are minimal, and are at least 1 |
| Billing.BilledHoursVsDuration | src/Management/Payment.java:22-23 | for a stay of at least a minute, billing and `calculateDuration` agree; otherwise billing charges 1 hour |
| Billing.ShortStayBillsOneHour | src/Management/Payment.java:21-23 | any stay under 61 minutes, or an exit before the entry, bills one hour |
| Billing.CalculateTotal | src/Management/Payment.java:19-58 | the total is non-negative, at least hours times rate, and at least the surcharge when misuse is flagged; what is left after the fee and the surcharge is exactly the strategy's fine for the billed hours |
| Billing.MisuseAddsSurcharge | src/Management/Payment.java:53-55 | flagging misuse adds exactly 50 |
| Billing.NoFineWithinFreeHours | src/Management/Payment.java:47-57 | within 24 billed hours and without misuse the total is hours times rate, whatever the strategy |
| Billing.TotalMonotoneInExit | src/Management/Payment.java:19-58 | a later exit never costs less |
| Billing.OverstaySample | src/Management/Payment.java:19-58 | a car in a Compact spot for 26 hours under the fixed scheme pays 26 × 2 plus the 50 RM fine, 102 |
| Billing.PaymentSamples | src/Management/PaymentTest.java:7-16 | `PaymentTest`'s two 2-hour card-holder charges with type "HANDICAPPED" are both 4 |
| Billing.FreeStayForOkuHandicapped | src/Management/Payment.java:29-30 | with the full label, the Handicapped-spot stay costs 0 |
| FineSchemes.StrategyByName | ui/UIDataManager.java:628-639 | Progressive and Hourly are chosen exactly by their names; every other name gives Fixed |
| FineSchemes.SchemeNameRoundTrip | ui/UIDataManager.java:628-639 | each strategy's scheme name selects it |
| FineSchemes.UnknownSchemeIsFixed | ui/UIDataManager.java:636-637 | a name other than the Progressive and Hourly names gives Fixed |
| FineSchemes.LatestAtOrBefore | ui/UIDataManager.java:644-648 | the row picked is at or before the time and is the latest such row; of equally late rows, the last inserted. There is none exactly when every row is later |
| FineSchemes.EntrySeconds | ui/UIDataManager.java:649 | the entry milliseconds truncated to whole seconds |
| FineSchemes.GetFineSchemeAtTime | ui/UIDataManager.java:642-662 | the default "Option A (Fixed)" when the entry second is negative or no row is early enough; otherwise the name of the latest row activated at or before the entry second, the last inserted among equal times |
| FineSchemes.LatestUnique | ui/UIDataManager.java:645-648 | at most one row is the latest at or before a time, so the query's answer is determined |
| FineSchemes.CalculateFineAtEntryTime | ui/UIDataManager.java:601-607 | the fine is the entry-time scheme's strategy applied to the hours; it is non-negative and zero exactly within 24 hours |
| FineSchemes.SetCurrentFineScheme | ui/UIDataManager.java:280-283 | the name becomes current and exactly one row is appended to the history |
| FineSchemes.CalculateFineForParking | ui/UIDataManager.java:595-598 | the fine is the current scheme's strategy applied to the hours; it is non-negative and zero exactly within 24 hours |
| FineSchemes.LaterActivationKeepsPast | ui/UIDataManager.java:79-82 | appending a row activated after the entry second leaves that entry's scheme unchanged |
| FineSchemes.NewestActivationWins | ui/UIDataManager.java:644-648 | a row no earlier than any other decides every entry from its second on |
| FineSchemes.CurrentAgreesWithNewEntries | ui/UIDataManager.java:280-283 | right after a switch, the fine under the current scheme equals the fine recorded for an entry at or after the switch |
| FineSchemes.SchemeSwitchIsNotRetroactive | ui/UIDataManager.java:280-283 | after a switch, earlier entries are fined as before and entries at or after the switch under the new scheme |
| FineSchemes.EmptyHistoryUsesFixed | ui/UIDataManager.java:660-661 | with no history every entry is fined under Fixed |
| Lots.AllSpotsConcat | src/ParkingLot/ParkingLot.java:55-61 | the spots of two runs of floors are those of the first run, then those of the second |
| Lots.GetTotalSpotCount | src/ParkingLot/ParkingLot.java:33-39 | the loop's total is the number of spots on all floors |
| Lots.FirstMatch | src/ParkingLot/ParkingLot.java:56-60 | the first matching position in scan order, or none when nothing matches |
| Lots.FirstMatchAt | src/ParkingLot/ParkingLot.java:56-60 | a match with no earlier match is the one found |
| Lots.Find | src/ParkingLot/ParkingLot.java:54-63 | the scan returns the FIRST matching spot in floor-then-spot order, and finds none exactly when no spot matches |
| Lots.FirstMatchedAtUnique | src/ParkingLot/ParkingLot.java:56-60 | only one position can be the first match, so the early `return` picks a determined spot |
| Lots.GetSpotById | src/ParkingLot/ParkingLot.java:54-63 | the first spot in scan order with exactly that id, or none exactly when no spot has it |
| Lots.GetSpotByUiId | src/ParkingLot/ParkingLot.java:65-68 | exactly the lookup by id of the id's internal spelling, so the first spot in scan order with that spelling |
| Lots.GetSampleSpotByType | src/ParkingLot/ParkingLot.java:102-111 | the first spot in scan order whose type equals the name ignoring case, or none exactly when there is no such spot |
| Lots.FirstFloorNamed | src/ParkingLot/ParkingLot.java:44-49 | the first floor whose id equals the target ignoring case, or none when no floor does |
| Lots.FirstNamedAtUnique | src/ParkingLot/ParkingLot.java:44-49 | only one floor can be the first with a name, so the loop's `break` picks a determined floor |
| Lots.GetSpotsForFloor | src/ParkingLot/ParkingLot.java:41-51 | the spots of the first floor named "Floor n" ignoring case, or empty when there is none |
| Lots.FloorNameMatches | src/ParkingLot/ParkingLot.java:43-45 | "Floor n" matches the name of floor 1..9 ignoring case exactly when the numbers agree |
| Lots.DefaultFloorSpots | src/ParkingLot/ParkingLot.java:41-51 | in the default lot floor n's 30 spots come back for n in 1..5, and nothing for any other n |
| Lots.ReservedSpelling | src/ParkingLot/ParkingLot.java:76 | of the four type names only "Reserved" equals "Reserved" ignoring case |
| Lots.IsSpotAllowed | src/ParkingLot/ParkingLot.java:70-86 | allowed exactly when vehicle and spot exist, the class accepts the type, and a Reserved spot has a VIP that is not a motorcycle |
| Lots.IsSpotAllowedTable | src/ParkingLot/ParkingLot.java:70-86 | on real vehicles and spots the rule is the table `Allowed` of class, spot type and VIP flag |
| Lots.ParkIgnoresVipRule | src/ParkingLot/ParkingSpot.java:20-36 | a car parks in a vacant Reserved spot although the lot refuses it without VIP |
| Lots.MotorcycleNeverReserved | src/ParkingLot/ParkingLot.java:80-82 | a motorcycle accepts a Reserved spot but the lot never allows it, VIP or not |
| Lots.SelectNames | src/ParkingLot/ParkingLot.java:89-99 | exactly the selected names, in the order Compact, Regular, Handicapped, Reserved |
| Lots.GetAllowedSpotTypes | src/ParkingLot/ParkingLot.java:88-100 | a type name is listed exactly when its sample spot exists and is allowed; in type order; nothing for a missing vehicle |
| Lots.LayoutByNumber | src/ParkingLot/ParkingLot.java:128-132 | spot number s sits at row (s-1)/10+1 and position (s-1)%10+1 |
| Lots.CreateSpotForLocation | src/ParkingLot/ParkingLot.java:140-164 | the id is formatted from floor, row and spot number. Row 1 on floors 1-3 is Reserved at positions 1-5 and Handicapped after; row 1 above is Reserved. Row 2 is Compact, row 3 Regular. The spot is vacant at its class rate |
| Lots.DefaultFloor | src/ParkingLot/ParkingLot.java:124-136 | floor f is named "Floor f" and holds 30 spots, numbered 1-30 in order |
| Lots.DefaultSpotFacts | src/ParkingLot/ParkingLot.java:128-132 | the spot at index j has number j+1, row j/10+1, the layout's type, and is vacant |
| Lots.DefaultFloorKinds | src/ParkingLot/ParkingLot.java:128-133 | on every floor, each spot's type, id and vacancy are as the layout prescribes |
| Lots.InitializeDefaultStructure | src/ParkingLot/ParkingLot.java:119-138 | the result has floors "Floor 1" to "Floor 5" with 30 spots each, floor i+1 being exactly the layout floor `DefaultFloor(i+1)` |
| Lots.InitializeIdempotent | src/ParkingLot/ParkingLot.java:121 | initialising clears first, so the result does not depend on the previous lot |
| Lots.AllSpotsUniform | src/ParkingLot/ParkingLot.java:33-39 | floors of 30 spots hold 30 per floor, floor i's spot j at position 30i+j |
| Lots.DefaultSpotCount | src/ParkingLot/ParkingLot.java:33-39 | the default lot has 150 spots |
| Lots.DefaultSpotAt | src/ParkingLot/ParkingLot.java:124-136 | in scan order, floor f's spot j comes at position 30(f-1)+j |
| Lots.DefaultPosition | src/ParkingLot/ParkingLot.java:124-136 | every one of the 150 scan positions is some floor's spot |
| Lots.DefaultIdsDistinct | src/ParkingLot/ParkingLot.java:124-133 | no two spots of the default lot share an id |
| Lots.LayoutSpotAt | src/ParkingLot/ParkingLot.java:33-39 | in floors of 30 spots, floor f's spot j comes at scan position 30(f-1)+j |
| Lots.DefaultIdsBefore | src/ParkingLot/ParkingLot.java:124-133 | no default spot scanned before floor f's spot j has that spot's id |
| Lots.DefaultIdFirstAt | src/ParkingLot/ParkingLot.java:54-63 | floor f's spot j is the first match for its own id in the default lot |
| Lots.DefaultLookup | src/ParkingLot/ParkingLot.java:54-63 | looking up a default spot's internal id finds that spot |
| Lots.DefaultLookupByUiId | src/ParkingLot/ParkingLot.java:65-68 | looking up a default spot's customer id finds that spot |
| Lots.StructureAudit | src/ParkingLot/StructureVerifier.java:13-24 | the audited spots of floors 1 and 4 have the expected types |
| Records.RemoveWhitespace | ui/UIDataManager.java:667 | the result has no whitespace and is no longer; text without whitespace is unchanged |
| Records.RemoveWhitespaceSingle | ui/UIDataManager.java:667 | a whitespace character is removed and any other character kept |
| Records.RemoveWhitespaceConcat | ui/UIDataManager.java:667 | removing whitespace from joined texts is removing it from each and joining |
| Records.ToUpperFacts | ui/UIDataManager.java:667 | upper-casing leaves no lower-case letter, keeps whitespace in place, and fixes text with no lower-case letter |
| Records.NormalizePlate | ui/UIDataManager.java:665-668 | null gives ""; a normalised plate has no whitespace and no lower-case letter and is no longer than the input |
| Records.NormalizePlateSingle | ui/UIDataManager.java:665-668 | a one-character plate normalises to "" when the character is whitespace and to its upper case otherwise |
| Records.NormalizePlateConcat | ui/UIDataManager.java:665-668 | normalising joined texts is normalising each and joining, so the plate is normalised character by character |
| Records.NormalizeIdempotent | ui/UIDataManager.java:665-668 | normalising twice is normalising once |
| Records.NormalizeExamples | ui/UIDataManager.java:665-668 | " a 1" normalises to "A1", and null to "" |
| Records.AddParkedVehicle | ui/UIDataManager.java:441-462 | the record is stored under the normalised plate, replacing any earlier one; other plates keep their records; keys stay normalised |
| Records.RemoveParkedVehicle | ui/UIDataManager.java:464-474 | only the normalised plate's record is deleted; nothing changes when it is absent |
| Records.AddOverwrites | ui/UIDataManager.java:444-448 | a second upsert under the same normalised plate replaces the first |
| Records.AddThenRemove | ui/UIDataManager.java:441-474 | adding then removing a plate is removing it |
| Records.OccupiedSpotIds | ui/UIDataManager.java:483-492 | a spot id is occupied exactly when it is non-empty and some record holds it |
| Records.ParkedSpotIsOccupied | ui/UIDataManager.java:483-492 | a just-stored non-empty spot is occupied |
| Records.RemovalFreesSpot | ui/UIDataManager.java:464-492 | removing the only holder of a spot frees it |
| Records.GetUnpaidFine | ui/UIDataManager.java:358-371 | the normalised plate's amount, 0 when it has no row |
| Records.IssueFine | ui/UIDataManager.java:373-386 | the plate's balance grows by the amount, its row is created if missing, and other plates are untouched |
| Records.RecordPayment | ui/UIDataManager.java:396-424 | one payment row is logged. An existing balance drops by the fine paid, never below 0, and a row reaching 0 is deleted. A plate with no row gains none; other plates are untouched |
| Records.Max0 | ui/UIDataManager.java:400 | `Math.max(0, x)` |
| Records.BalancesStayNonNegative | ui/UIDataManager.java:373-424 | non-negative fines keep every balance non-negative through fines and payments |
| Records.PaymentWithoutFineKeepsBalance | ui/UIDataManager.java:399-420 | paying no fine leaves a non-negative balance as it was |
| Records.FullPaymentClears | ui/UIDataManager.java:411-414 | paying at least the balance deletes the row |
| Records.PartialPaymentScenario | ui/UIDataManager.java:373-424 | a fine of 150 paid down by 50 leaves 100 |
| Records.PlatesAreIndependent | ui/UIDataManager.java:373-386 | fining one plate leaves every differently normalised plate's balance alone |
| CustomerView.HoursRoundedUp | ui/CustomerUI.java:818 | the fewest whole hours covering the milliseconds, with at least 1 |
| CustomerView.RoundingVariantsDiffer | ui/CustomerUI.java:818 | 60 min 30 s is 2 hours on the screen and 1 hour in `Payment` |
| CustomerView.RoundingVariantsAgreeOnWholeMinutes | ui/CustomerUI.java:224 | on a whole number of minutes the screen and `Payment` round alike |
| CustomerView.CustomerHoursAtLeastPaymentHours | ui/CustomerUI.java:224 | the screen never bills fewer hours than `Payment` for the same stay |
| CustomerView.GetParkingRate | ui/CustomerUI.java:465-489 | the payment rules on known types or with a card; 0 for an unknown type without a card |
| CustomerView.ScreenRateDiffersOnlyForUnknownTypes | ui/CustomerUI.java:486-487 | for an unknown type without a card the screen quotes 0 and `Payment` charges 5 |
| CustomerView.GetAvailableParkingTypes | ui/CustomerUI.java:423-450 | only type names are offered; all four for a missing label and for any label that is not one of the four vehicle labels, the empty label included; Reserved, for a vehicle label, only to a VIP that is not a motorcycle |
| CustomerView.DisplayNamesCaseDistinct | src/ParkingLot/ParkingLot.java:102-111 | the four type names differ even ignoring case |
| CustomerView.DefaultSample | src/ParkingLot/ParkingLot.java:102-111 | in the default lot, the sample spot for each type name exists and is of that type |
| CustomerView.DefaultAdmits | src/ParkingLot/ParkingLot.java:92-96 | in the default lot a type is admitted exactly when the table `Allowed` says so |
| CustomerView.SortedNamesUnique | src/ParkingLot/ParkingLot.java:90-97 | lists of type names in type order are equal when they have the same members |
| CustomerView.OfferedMembership | ui/CustomerUI.java:428-449 | the offered list is in type order and holds a class's type exactly when `Allowed` says so |
| CustomerView.OfferedTypesMatchAllocation | ui/CustomerUI.java:423-450 | for every vehicle class and VIP flag the screen offers exactly the list the lot allows on the default layout |
| CustomerView.RowFor | ui/CustomerUI.java:614-616 | a row shows "Occupied" exactly when its id is among the occupied ids |
| CustomerView.Segment | ui/CustomerUI.java:613-617 | a run of rows numbered first..last of one type and row, each with its customer id |
| CustomerView.SegmentRowAt | ui/CustomerUI.java:613-617 | row k of a run is the row for the customer id of spot number first+k, with the run's type and row |
| CustomerView.GetSpotsForFloorView | ui/CustomerUI.java:608-644 | 30 rows, each "Occupied" exactly when its id is occupied |
| CustomerView.ViewRowLow | ui/CustomerUI.java:612-622 | on floors 1-3 row j is spot j+1 of the layout, with its customer id and type |
| CustomerView.ViewRowHigh | ui/CustomerUI.java:623-629 | above floor 3 row j is spot j+1 of the layout, with its customer id and type |
| CustomerView.ViewMatchesLayout | ui/CustomerUI.java:608-644 | each row's id is the customer spelling of the default spot at that index, and its type is that spot's type |
| CustomerView.FirstDash | ui/CustomerUI.java:924 | the position of the first '-', or the length when there is none; no '-' comes before it |
| CustomerView.FirstDashOfConcat | ui/CustomerUI.java:924 | a dash-free prefix moves the first dash by its length |
| CustomerView.ExtractSpotType | ui/CustomerUI.java:922-929 | "" for null, empty or single-field ids; otherwise the dash-free text after the first '-' up to the next |
| CustomerView.SecondField | ui/CustomerUI.java:924-926 | for head-dash-field-tail text with dash-free head and field, the second field is the field |
| CustomerView.ExtractSpotTypeOfUiId | ui/CustomerUI.java:922-929 | on a customer id the second field is its type, as `extractType` finds |
| CustomerView.ExtractSpotTypeOfInternalId | ui/CustomerUI.java:922-929 | on an internal id the second field is the row, "R" and its number |
| CustomerView.ExtractSpotTypeInternalSample | ui/CustomerUI.java:922-929 | `F1-R1-S01` reads as "R1" |
| CustomerView.ExtractSpotTypeUiSample | ui/CustomerUI.java:922-929 | `F1-Reserved-R1S01` reads as "Reserved" |
| CustomerView.FormatDuration | ui/CustomerUI.java:936-964 | "0 hours" for no hours. Otherwise the hour count comes first; under a day it stands alone; from a day on it is followed by the days-and-hours breakdown in parentheses |
| CustomerView.FormatDurationOfDaysAndHours | ui/CustomerUI.java:935-964 | a stay of d ≥ 1 days and r < 24 further hours prints its hour count, then d days and, when r > 0, r hours, in parentheses |
| CustomerView.BreakdownOfDays | ui/CustomerUI.java:949-959 | with at least one day the bracketed text is the days, then a space and the leftover hours when there are any |
| CustomerView.FormatDurationDays | ui/CustomerUI.java:931-935 | 68 hours print as "68 hours (2 days 20 hours)" |
| CustomerView.FormatDurationOneDay | ui/CustomerUI.java:949-960 | 24 hours print as "24 hours (1 day)" |
| CustomerView.FormatDurationDayAndHour | ui/CustomerUI.java:949-960 | 25 hours print as "25 hours (1 day 1 hour)" |
| CustomerView.FormatDurationShort | ui/CustomerUI.java:937-946 | 1 prints "1 hour"; 0 and negative counts print "0 hours" |
| CustomerView.PayAndExit | ui/CustomerUI.java:803-843 | nothing happens for an empty or unparked plate. Otherwise the record goes, the unpaid fine reaches 0, the total is fee plus fine, the history is untouched; the parked map loses exactly that plate and the accounts are the payment recorded for the receipt's total, fee and fine; the receipt is the one `ExitCharges` computes for the plate's parking record |
| CustomerView.ExitCharges | ui/CustomerUI.java:816-826 | the fee is the screen rate of the spot's type times the hours rounded up; the fine is the entry-time scheme's fine for those hours plus the plate's unpaid fines, so never below them; the total is fee plus fine |
| CustomerView.PayAndExitLeavesOthers | ui/CustomerUI.java:840-841 | paying for one plate leaves every other plate's parking record and unpaid balance unchanged |
| CustomerView.PayAndExitReceipt | ui/CustomerUI.java:814-827 | the fee is the spot's screen rate times the hours rounded up since entry, and the fine is the entry-time scheme's fine for those hours plus the plate's earlier unpaid fines |
| CustomerView.PayAndExitLogsOnePayment | ui/CustomerUI.java:840 | paying appends exactly one payment row, under the normalised plate, for the total due |

## Left out

- The Swing screens: pages, dialogs, receipts, admin dashboard percentages. They are presentation; the dashboard's occupancy rate uses floating point.
- JDBC and SQL plumbing: tables are maps and sequences, and a failed statement (logged and ignored in the code) is not modelled.
- The card-holder and VIP lookups: these are database reads and become boolean parameters.
- `Payment.processPayment`: a database insert with no logic.
- `UIDataManager.getHourlyRate` calls `Payment` overloads that do not exist in `Payment`; that code is not part of this model.
- The other `UIDataManager` screen helpers (`getAllowedParkingTypes`, `isSpotAllowedForVehicle`, `getSpotsForFloor`, `getAvailabilitySummary`) are not part of this model.
- `Ticket` is not part of this model: its id comes from the wall clock.
- The active-ticket map that `addParkedVehicle` and `removeParkedVehicle` also update is left out for the same reason.
- Authentication and user management: plain table CRUD.
- The synchronized singleton `ParkingLot.getInstance`: the lot is an explicit value.
- Clock reads (`LocalDateTime.now`, `System.currentTimeMillis`): times are parameters in milliseconds.
- The customer screen clamps negative stays to 0 on two pages. The pay step does not; `PayAndExit` follows the pay step.
- Floating point: every rate and fine in the code is a whole number of ringgit, so amounts are `int`. The admin test calculator's `double` ceiling is not modelled.
- Unicode: case folding and `\s` are modelled on ASCII only.
- `Integer.parseInt` overflow: spot-id digit groups parse to unbounded naturals. The model does not reject groups of 2^31 or more.
- Null spot-id strings in `ParkingSpot`'s static helpers: ids are plain strings there. Null is modelled where the code tests for it: `fromDisplayName`, `fromDisplayType`, `normalizePlate`, `isSpotAllowed`, `extractSpotType`, `getAvailableParkingTypes`.
- A null spot type passed to `Payment.calculateTotal` without a card throws from its `switch`; the model's spot type is always a string.
- The two shorter `recordPayment` overloads only fill in defaults for the full one, which is modelled.
- Vehicles.CalculateDuration takes the current time as a parameter instead of reading the clock.
- CustomerView.GetAvailableParkingTypes states its per-class lists through `OfferedMembership` and `OfferedTypesMatchAllocation` rather than in its own contract.
