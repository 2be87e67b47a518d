# Parking-lot bookkeeping, modelled in Dafny

This project models the bookkeeping core of a single-site parking-lot web tool. The tool
keeps one dataset `db` in the browser. It has six tables: vehicles, stays (one parking
permanence of a vehicle), price rules, cash shifts (register sessions), payments and clients.
The model covers three parts.

- **Fee calculation** (`calcAmount`). Billed minutes are floored and at least 1. The first
  hour is a flat price. Every started fraction after it is charged in full; the fraction
  length falls back to 15 minutes when it is 0. An optional daily cap clamps the fee and
  marks the description with " (teto diário)". Money is integer cents and instants are
  integer milliseconds.
- **Stay lifecycle**. Entry normalises the plate. It resolves the vehicle, creating it when
  the plate is unknown. It opens a stay only when the vehicle has none open. Exit fails,
  changing nothing, when the plate is unknown, when the vehicle has no open stay, or when
  no rule is active. Otherwise it closes the stay with its fee and appends exactly one
  payment, attributed to the open cash shift or to none.
- **Ledger and registry**. Opening and closing the register keeps at most one shift open.
  Client deletion sets the client reference of vehicles to null. Vehicle creation rejects
  a known plate. A rule's `active` flag can be toggled. New rules and clients can be
  created. Every new record's id is the last record's id plus one, or 1 in an empty table.

Modules, one file each:

- `Wrappers`: Option and Result.
- `Text`: the whitespace `trim` removes, ASCII upper case, and integer rendering with its
  parse-back.
- `Plates`: `normalizePlate`.
- `Pricing`: `calcAmount` and its properties.
- `Records`: the records, `find`, the id policy and the lookups.
- `Registry`: vehicles, clients and rules.
- `Cash`: shifts.
- `Stays`: entry and exit as functions of the tables, with the invariant they keep.
- `Parking`: class `Db`, whose methods are the handlers. It also holds a client scenario,
  `Scenarios`.

The handlers accept any dataset, as the source does. Each method states its whole new state
as a function of the old one. Each also promises `old(Valid()) ==> Valid()`. `Valid()` says:

- ids grow in every table;
- plates are unique;
- a vehicle has at most one open stay;
- a closed stay has exactly one payment, and an open stay has none;
- at most one cash shift is open.

Points of the id policy and of the handlers that a reader might expect otherwise:

- New ids are the last id + 1, not the largest id + 1. The two agree while ids grow
  (`Records.NextIdFresh`), and every handler keeps them growing.
- Ids can be reused. Deleting a client can make its id the next client id again
  (`Registry.ClientIdReusedAfterDeletingNewest` gives one such case).
- The descriptions the fee carries are the code's own Portuguese strings: "até 1h",
  "1h + nx fração" and " (teto diário)".
- Entry returns nothing. The model returns an outcome that says which branch was taken.
- Exit reports its three failures as messages on the page. The model returns them as a
  `Result`.

## Model

| member | source | states |
|---|---|---|
| Text.Trim | static/js/main.js:420-422 | `trim()`: the result is the slice of the input between a run of whitespace at the start and one at the end, and it starts and ends with no JavaScript whitespace character |
| Text.TrimIdempotent | static/js/main.js:420-422 | trimming a trimmed string changes nothing |
| Text.UpperAscii | static/js/main.js:38 | `toUpperCase()` on ASCII: same length, each lower-case ASCII letter replaced by its capital, every other character kept |
| Text.IntToString | static/js/main.js:65 | `${n}`: a minus sign exactly when n is negative, then one or more decimal digits |
| Text.IntToStringRoundTrip | static/js/main.js:65 | the rendering of the fraction count in a description parses back to that count, so it loses nothing |
| Text.IntToStringInjective | static/js/main.js:65 | two different fraction counts give two different renderings, so descriptions with different counts differ |
| Text.NatToString | static/js/main.js:65 | the rendering is at least one decimal digit, with no leading zero |
| Plates.KeepPlateChars | static/js/main.js:38 | the regex replacement leaves only the characters A-Z and 0-9, and never lengthens the string |
| Plates.KeepPlateCharsCounts | static/js/main.js:38 | every A-Z or 0-9 character of the input survives as often as it occurs, and every other character is dropped |
| Plates.KeepPlateCharsSingle | static/js/main.js:38 | one character is kept exactly when it is A-Z or 0-9 |
| Plates.KeepPlateCharsAppend | static/js/main.js:38 | the replacement distributes over concatenation, so the kept characters keep their order |
| Plates.NormalizePlate | static/js/main.js:37-39 | a normalised plate holds only A-Z and 0-9 |
| Plates.NormalizeNormalPlate | static/js/main.js:37-39 | a string of A-Z and 0-9 is already in normal form |
| Plates.NormalizePlateIdempotent | static/js/main.js:37-39 | normalising twice is normalising once |
| Plates.NormalizePlateExample | static/js/main.js:37-39 | lower case, blanks and the dash are absorbed: " abc-1d23 " becomes "ABC1D23" |
| Pricing.BilledMinutes | static/js/main.js:52 | whole elapsed minutes, rounded down, and 1 when less than a minute elapsed (also for an exit at or before the entry) |
| Pricing.CeilDiv | static/js/main.js:63 | `Math.ceil(a / b)` is the least integer q with a <= q*b for b > 0, with the mirror relation for b < 0 |
| Pricing.FractionLength | static/js/main.js:62 | the fraction length is 15 when the stored length is 0, and the stored length otherwise, negative ones included; it is never 0 |
| Pricing.Fractions | static/js/main.js:60-64 | n fractions cover the minutes after the first hour and n - 1 do not (reversed for a negative length) |
| Pricing.BaseCharge | static/js/main.js:53-66 | the uncapped charge is the first-hour price up to 60 minutes, then first hour + fractions * fraction price; its description is "<name>: até 1h" up to 60 minutes and "<name>: 1h + <n>x fração" after, with n the fraction count rendered in decimal |
| Pricing.CalcAmount | static/js/main.js:49-72 | the fee reports at least one minute; with a cap, the amount never exceeds it; without one, it is the uncapped charge |
| Pricing.FeeMinutes | static/js/main.js:52 | the reported minutes are max(1, floor(elapsed ms / 60000)) |
| Pricing.FirstHourIsFlat | static/js/main.js:57-59 | up to 60 minutes the uncapped charge is the first-hour price, with the "até 1h" description |
| Pricing.FractionsRoundUp | static/js/main.js:60-66 | after the first hour, n fractions cover the extra minutes and n - 1 do not; at least one is charged; the charge is first hour + n * fraction price |
| Pricing.DailyCap | static/js/main.js:67-71 | with a cap, the amount is min(charge, cap) and the description is the uncapped one with " (teto diário)" appended exactly when the cap lowered the amount; no other description ends in the marker; without a cap, the charge and description pass through |
| Pricing.FeeMonotonic | static/js/main.js:49-72 | with a non-negative fraction length and price, a later exit never costs less |
| Pricing.StandardRuleFortyFiveMinutes | static/js/main.js:22-28 | under the seed rule, 45 minutes cost R$ 10,00 with "Padrão: até 1h" |
| Pricing.StandardRuleNinetyMinutes | static/js/main.js:60-66 | under the seed rule, 90 minutes are two fractions, R$ 14,00, described as "Padrão: 1h + 2x fração" |
| Pricing.StandardRuleTenHours | static/js/main.js:67-70 | under the seed rule, ten hours are capped at R$ 30,00, with the cap marker |
| Pricing.NegativeFractionLengthLowersCharge | static/js/main.js:60-66 | a fraction of -15 minutes, which the price form accepts, makes 90 minutes under the seed rule cost R$ 6,00, less than the first hour alone |
| Records.Find | static/js/main.js:42 | `find` gives the first element that satisfies the test, or none when no element does |
| Records.FindPlate | static/js/main.js:343 | the first vehicle with the plate, or none when no vehicle has it |
| Records.FindOpenStay | static/js/main.js:348 | the first open stay of the vehicle, or none when it has no open stay |
| Records.PickRule | static/js/main.js:45-47 | the first active rule in table order, or none when no rule is active |
| Records.FindRule | static/js/main.js:447 | the first rule with the id, or none |
| Records.GetOpenShift | static/js/main.js:41-43 | the first shift not yet closed, or none when all are closed |
| Records.NextId | static/js/main.js:345 | the id rule: 1 for an empty table, else one more than the last id; while ids grow, above every id in use |
| Records.NextIdFresh | static/js/main.js:345 | while ids grow, the next id is above every id in use, is one more than the largest, and keeps ids growing |
| Records.NextIdIsLastNotMax | static/js/main.js:345 | after ids 2 and 1 the next id is 2, which is already in use: the next id follows the last id, not the largest |
| Registry.VehiclesAfterCreate | static/js/main.js:459-469 | one vehicle is appended exactly when the plate is non-empty and unknown, with the next id and the form's fields; otherwise the table is unchanged |
| Registry.CreateVehicleKeepsPlatesUnique | static/js/main.js:459-469 | an empty or known plate changes nothing; a new plate appends exactly one vehicle; plates stay unique and ids keep growing |
| Registry.ClientsWithout | static/js/main.js:436 | after the deletion no client has the id, and every client with another id is still there |
| Registry.ClientsWithoutCounts | static/js/main.js:436 | every client with another id is kept as often as it occurs, and the clients with the id are dropped |
| Registry.ClientsWithoutSingle | static/js/main.js:436 | one client is kept exactly when its id is not the deleted one |
| Registry.ClientsWithoutAppend | static/js/main.js:436 | the filter distributes over concatenation, so the kept clients keep their order |
| Registry.ClientsWithoutIncreasing | static/js/main.js:436 | deleting clients keeps client ids growing |
| Registry.ClientIdReusedAfterDeletingNewest | static/js/main.js:418-424 | one case of id reuse: with clients 1 and 2, deleting client 2 makes 2 the next client id again |
| Registry.Unlinked | static/js/main.js:437 | a vehicle that referenced the client gets a null reference; every other vehicle and every other field is unchanged |
| Registry.NewClient | static/js/main.js:418-424 | a new client gets the next id, the trimmed name, phone and notes, and is VIP exactly when the form field is "1" |
| Registry.NewClientKeepsIdsGrowing | static/js/main.js:419 | while client ids grow, the new client's id is above every client id in use, so they keep growing |
| Registry.RulesAfterToggle | static/js/main.js:446-448 | the toggle keeps the table's length, and each rule either is unchanged or has only its `active` flag flipped |
| Registry.ToggleFlipsOneFlag | static/js/main.js:446-448 | the toggle flips `active` on the first rule with the id and changes nothing else; with no such rule, nothing changes |
| Registry.ToggleTwiceRestores | static/js/main.js:446-448 | toggling the same rule twice restores the rule table |
| Registry.NewPriceRule | static/js/main.js:481-489 | a new rule takes the next id and the trimmed name, and is active; each filled field's value is stored, empty fields default to 0 for money and 15 for the fraction length, and the cap is stored as given (none for an empty field) |
| Registry.NewPriceRuleKeepsIdsGrowing | static/js/main.js:482 | the new rule's id keeps rule ids growing |
| Cash.OpenShiftId | static/js/main.js:402 | a payment's shift is null exactly when no shift is open; with at most one open, it is the open shift's id |
| Cash.ShiftsAfterOpen | static/js/main.js:496-504 | while a shift is open the table is unchanged; otherwise one open shift is appended, with the next id, the opening instant and the initial amount |
| Cash.ShiftsAfterClose | static/js/main.js:510-514 | the first open shift gets `closedAt` = now, and every other shift is unchanged |
| Cash.OpenShiftKeepsOneOpen | static/js/main.js:496-504 | with at most one shift open and growing ids: opening while a shift is open changes nothing; otherwise one open shift is appended; afterwards exactly one shift is open |
| Cash.CloseShiftClosesTheOpenOne | static/js/main.js:510-514 | with at most one shift open: closing sets `closedAt` on the open shift only, so none stays open; closed shifts never change |
| Stays.ResolvedVehicleId | static/js/main.js:343-347 | the entry's vehicle id is the next vehicle id for an unknown plate; with unique plates, it is the id of the vehicle with the plate |
| Stays.VehiclesAfterEntry | static/js/main.js:343-347 | a known plate leaves the vehicle table unchanged; an unknown one appends a vehicle with the next id, empty model and colour, and no client |
| Stays.StaysAfterEntry | static/js/main.js:348-365 | a vehicle with an open stay leaves the stay table unchanged; otherwise an open stay with the next id, the entry instant and amount 0 is appended |
| Stays.EntryResolvesOneVehicle | static/js/main.js:343-347 | with unique plates and growing vehicle ids: after an entry exactly one vehicle has the plate, the resolved one; plates stay unique and earlier vehicles are kept |
| Stays.EntryOpensOneStay | static/js/main.js:348-365 | under the stay-payment invariant: after an entry the vehicle has exactly one open stay; earlier stays are kept and the invariant still holds |
| Stays.AppendOpenStayKeepsConsistent | static/js/main.js:357-365 | a new open stay with the next id, for a vehicle with no open stay, keeps the stay-payment invariant |
| Stays.EntryIdempotent | static/js/main.js:343-355 | a repeated entry of the same plate changes nothing, whatever its time |
| Stays.LocateExit | static/js/main.js:380-387 | exit takes the first vehicle with the plate, that vehicle's first open stay, and the first active rule; it fails with the first that is missing |
| Stays.CloseStay | static/js/main.js:389-393 | the closed stay keeps its id, vehicle and entry time; its exit time is now, and its amount, minutes and description are the fee's |
| Stays.StaysAfterExit | static/js/main.js:389-393 | the stay being closed becomes the closed stay, and every other stay is unchanged |
| Stays.PaymentsAfterExit | static/js/main.js:395-403 | one payment is appended for the stay, with the next payment id and the amount, method, instant and shift given; earlier payments are kept, and growing ids keep growing |
| Stays.ExitRecordsOnePayment | static/js/main.js:389-403 | closing an open stay leaves it exactly one payment, whose amount is both the stay's and the fee's; no other stay or payment changes, and the invariant holds |
| Parking.Db.Seed | static/js/main.js:16-35 | the seed dataset: the standard rule and empty tables; it satisfies the invariant |
| Parking.Db.Enter | static/js/main.js:337-371 | an empty plate changes nothing; otherwise the vehicle and stay tables become the entry functions of the old ones; the invariant is kept |
| Parking.Db.Exit | static/js/main.js:374-412 | a failed guard changes nothing; on success the stay is closed with `calcAmount`'s fee and one payment attributed to the open shift is appended; the invariant is kept |
| Parking.Db.CreateClient | static/js/main.js:415-428 | appends the new client and keeps the invariant |
| Parking.Db.DeleteClient | static/js/main.js:433-442 | removes the clients with the id, nulls exactly the vehicle references to it, changes nothing else, and keeps the invariant |
| Parking.Db.ToggleRule | static/js/main.js:444-452 | the rule table becomes the toggled one, and the invariant is kept |
| Parking.Db.CreateVehicle | static/js/main.js:456-475 | a vehicle is created exactly when the normalised plate is non-empty and unknown; the invariant is kept |
| Parking.Db.CreatePriceRule | static/js/main.js:478-493 | appends the new rule and keeps the invariant |
| Parking.Db.OpenShift | static/js/main.js:496-508 | opens a shift exactly when none is open; the invariant is kept |
| Parking.Db.CloseShift | static/js/main.js:510-517 | closes the open shift exactly when there is one; the invariant is kept |

## Left out

- Storage: `loadDB` and `saveDB` with `localStorage` and JSON are I/O. The dataset is the
  `Db` object. Because each handler reloads the dataset, no object is shared between two
  handler runs. Records are therefore values in sequences.
- The seed's `settings` and `users` tables, login and logout, the demo reset and the
  total-spots setting: these are authentication and display only.
- Rendering, the router, the dashboard statistics (averages over floating-point values) and
  the CSV export: these are UI and download plumbing.
- Floating point: money is integer cents, so `toFixed(2)` and `fmtMoney` have no
  counterpart. `Math.ceil(extra / fracMin)` on doubles is the exact ceiling for minute
  counts below 2^53, and that exact ceiling is what the model computes.
- Time: the clock becomes the `now` parameter. The exit handler reads the clock twice, once
  for `exitAt` and once for `paidAt`. The model uses one instant for both.
- Form parsing: the form's strings reach the model already converted. Money is in cents,
  the price form's empty fields are None, and the VIP field is a string.
- Pricing.PriceRule: `fractionMinutes` is a whole number of minutes. The price form stores
  `Number(...)` of the field, so a fractional length such as 7.5 is possible in the source;
  the model does not represent it.
- Plates.NormalizePlate: upper-cases ASCII letters only. A non-ASCII character whose
  Unicode upper case is ASCII is kept by the source (e.g. "ß" becomes "SS", "ı" becomes
  "I"). The model drops it. A null input (`p || ""`) is not modelled.
- Pricing.FractionsRoundUp and Pricing.FeeMonotonic: they are stated only for a fraction
  length that is not negative; Pricing.FeeMonotonic also only for a fraction price that is
  not negative. The price form accepts a negative length. The model then
  computes what the source computes: zero or negative fractions, so every fraction is a
  discount (`Pricing.NegativeFractionLengthLowersCharge`). With a negative length, the
  contracts promise nothing about the charge rounding up or the fee growing with time.
- Pricing.FractionLength: a missing or non-numeric `fractionMinutes` is represented as 0.
  It falls back to 15, as it does in the source.
- Messages: the texts written to the page on exit are left out. The model returns the
  failure or the fee instead.
