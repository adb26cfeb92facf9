# Mettle, modelled in Dafny

Mettle is an iOS app for logging personal records in weightlifting. Each
record is a *lift entry*: a lift type (back squat, snatch, bench, ...), a
date, a weight and an optional note. Entries are kept as `LiftEntry`
records in the public CloudKit database. The home screen groups entries
into one tile per lift type. A tile's chart spans the dates of its lifts.
Sign in with Apple sends a hashed nonce. A percentage calculator derives
training percentages from a best lift.

This project models the app's logic and proves properties of it. The
modules follow the Swift files:

| module | file | models |
|---|---|---|
| `LiftTypes`, `WorkoutTypes` | `lift_type.dfy`, `workout_type.dfy` | the two enumerations, `description`, raw values and `init?(rawValue:)` |
| `LiftEntries` | `lift_entry.dfy` | the `LiftEntry` struct; fresh `UUID`s from a counter |
| `StringOrder` | `string_order.dfy` | `<` on `String` |
| `DateSort` | `date_sort.dfy` | `sorted(by:)` on dates, as an insertion sort |
| `Utilities` | `utilities.dfy` | `Color.init(hex:)` (integer part), `poundsToKilograms` and the newest-first sort |
| `SplashPage` | `splash_page.dfy` | `randomNonceString`, the hex rendering of the digest, and `configureRequest` |
| `CloudKitManager` | `cloudkit_manager.dfy` | record encoding, the decoding `compactMap`, the delete guard, and the database as a map |
| `LiftTile` | `lift_tile.dfy` | `getChartDomain` and the header text |
| `Home` | `home.dfy` | grouping, key order, rows, the oldest-first sort, and the `liftEntries`/`needsRefresh` state |
| `PercentageCalculator` | `percentage_calculator.dfy` | the presets and the `selectedPercentage`/`lastHapticValue` state machine |

Assumptions where the Swift sources do not compile as shown:

- `LiftType` declares no raw type, yet `rawValue` and `LiftType(rawValue:)` are used. The model gives each case its own name as raw value ("backSquat", ...), as a `String` enum would.
- `LiftEntry` has no `recordID`, yet `fetchLiftEntries` and `deleteLiftEntry` use one. The model adds `recordID: Option<RecordId>`.

Other modelling choices:

- Dates are integers. `Calendar.date(byAdding: .month, ...)` is a parameter `addMonths`. The only fact used about it is that six months back is not later and six months ahead is not earlier (`LiftTile.SixMonthsAreOrdered`).
- `UUID()` is an identifier drawn from a `UuidSource`. It hands out numbers never handed out before.
- `Scanner.scanHexInt64` is the value of the longest leading run of hex digits, 0 when there is none.
- `CharacterSet.alphanumerics` is ASCII letters and digits.
- The system random generator is a finite input sequence of bytes.
- SHA-256 is a function parameter. UTF-8 encoding covers ASCII only.
- Record fields are tagged values: string, date, double or other. Each CloudKit call completes synchronously. Its transport failure is an explicit `fault` argument.
- Swift's `Int(Double)` truncates toward zero; so does `PercentageCalculator.Truncate`. Weights are `real`.

## Model

| member | source | states |
|---|---|---|
| LiftTypes.Ordinal | Mettle/Models/LiftType.swift:10-30 | every case sits in `allCases` at its declaration position |
| LiftTypes.AllCasesListsEachOnce | Mettle/Models/LiftType.swift:10-30 | `allCases` has 16 entries, lists every case, and lists none twice |
| LiftTypes.Description | Mettle/Models/LiftType.swift:32-72 | `description` is defined for every case and never empty |
| LiftTypes.DescriptionInjective | Mettle/Models/LiftType.swift:35-70 | different cases have different descriptions |
| LiftTypes.FromRawValue | Mettle/Models/CloudKitManager.swift:43 | a decoded lift type has the given string as raw value |
| LiftTypes.RawValueRoundTrip | Mettle/Models/LiftType.swift:10-30 | decoding a case's raw value gives back that case |
| LiftTypes.FromRawValueNil | Mettle/Models/CloudKitManager.swift:43 | decoding yields nil exactly for strings that are no case's raw value |
| LiftTypes.RawValueInjective | Mettle/Models/LiftType.swift:10-30 | different cases have different raw values |
| WorkoutTypes.Ordinal | Mettle/Models/WorkoutType.swift:10-38 | every case sits in `allCases` at its declaration position |
| WorkoutTypes.AllCasesListsEachOnce | Mettle/Models/WorkoutType.swift:10-38 | `allCases` has 28 entries, lists every case, and lists none twice |
| WorkoutTypes.Description | Mettle/Models/WorkoutType.swift:40-71 | for every case, `description` equals `rawValue` |
| WorkoutTypes.FromRawValue | Mettle/Models/WorkoutType.swift:10-38 | a decoded workout has the given string as raw value |
| WorkoutTypes.RawValueRoundTrip | Mettle/Models/WorkoutType.swift:10-38 | `init?(rawValue:)` inverts `rawValue` |
| WorkoutTypes.FromRawValueNil | Mettle/Models/WorkoutType.swift:10-38 | any string that is not one of the 28 raw values decodes to nil, and only such a string does |
| WorkoutTypes.RawValueInjective | Mettle/Models/WorkoutType.swift:11-38 | raw values are pairwise distinct |
| LiftEntries.UuidSource.Fresh | Mettle/Models/LiftEntry.swift:11 | each `UUID()` differs from every identifier handed out before |
| LiftEntries.UuidSource.Reserve | Mettle/Models/LiftEntry.swift:11 | a run of identifiers handed out together is fresh as a whole |
| LiftEntries.NewEntry | Mettle/Models/LiftEntry.swift:10-16 | an entry carries the given lift type, date, weight and optional note, and a fresh `id` that is not an argument |
| LiftEntries.BuildTwice | Mettle/Models/LiftEntry.swift:10-11 | two entries built from equal data are unequal, because equality covers `id` |
| StringOrder.LessIrreflexive | Mettle/HomeView.swift:113 | no string is below itself |
| StringOrder.LessTransitive | Mettle/HomeView.swift:113 | `<` on strings is transitive |
| StringOrder.LessTotal | Mettle/HomeView.swift:113 | of two different strings, one is below the other |
| StringOrder.LessAfterPrefix | Mettle/HomeView.swift:113 | a common prefix does not change the order |
| DateSort.SortByDate | Mettle/Utilities.swift:92-94 | the result is a permutation of the input, sorted by the given date order |
| Utilities.Trim | Mettle/Utilities.swift:50 | trimming removes only a leading and a trailing run of non-alphanumerics; the rest is a contiguous slice kept as is, and it starts and ends with an alphanumeric |
| Utilities.TrimKeepsTrimmed | Mettle/Utilities.swift:50 | a string with alphanumeric ends is left unchanged |
| Utilities.TrimIdempotent | Mettle/Utilities.swift:50 | trimming twice equals trimming once |
| Utilities.HexValue | Mettle/Utilities.swift:52 | the value of n hex digits is below 16^n |
| Utilities.HexRun | Mettle/Utilities.swift:52 | the scanned run is the longest leading run of hex digits |
| Utilities.ScanHexInt64 | Mettle/Utilities.swift:52 | the scanned value is below 16 to the power of the run's length |
| Utilities.ScanBound | Mettle/Utilities.swift:52 | a string of n characters scans to a value below 16^n |
| Utilities.ScanAllHex | Mettle/Utilities.swift:52 | a string of hex digits scans as a whole |
| Utilities.CharacterCount | Mettle/Utilities.swift:54 | `hex.count` counts Characters: never more than the chars, and exactly the chars when there is no CR |
| Utilities.CharacterCountMergesCrLf | Mettle/Utilities.swift:54 | the Character count plus the number of CR LF pairs, counted at every position, is the char length: each pair is one Character, and nothing else merges |
| Utilities.HexRunWithinCount | Mettle/Utilities.swift:52-54 | the scanned hex run is never longer than the Character count the switch uses |
| Utilities.ColorComponents | Mettle/Utilities.swift:49-65 | for every input, every component lies in 0..255 |
| Utilities.ThreeDigitNibbles | Mettle/Utilities.swift:56 | for 3 digits, each component is its nibble times 17 and alpha is 255 |
| Utilities.SixDigitBytes | Mettle/Utilities.swift:58 | for 6 digits, r, g and b are the digit pairs, `(r<<16)+(g<<8)+b` is the scanned value, and alpha is 255 |
| Utilities.EightDigitArgb | Mettle/Utilities.swift:59 | for 8 digits the order is ARGB: alpha comes from the first pair |
| Utilities.OtherLengthIsOpaqueBlack | Mettle/Utilities.swift:54-62 | any other trimmed Character count gives (255, 0, 0, 0) |
| Utilities.CrLfInEightCharacters | Mettle/Utilities.swift:50-60 | "a\r\nbcdefg" has 8 Characters (CR LF is one), so it takes the ARGB branch with the scanned run "a": (0, 0, 0, 10) |
| Utilities.CrLfInFiveCharacters | Mettle/Utilities.swift:54-62 | "ab\r\ncd" has 5 Characters, so it is opaque black rather than a 6-digit colour |
| Utilities.ChartColour | Mettle/LiftTileView.swift:53 | "#F90C6A" decodes to alpha 255 with r, g, b = F9, 0C, 6A |
| Utilities.PoundsToKilograms | Mettle/Utilities.swift:98-100 | a non-negative weight in kilograms is not more than in pounds |
| Utilities.SortLiftEntriesByDate | Mettle/Utilities.swift:92-94 | the result is a permutation of the input, newest first |
| SplashPage.CharsetShape | Mettle/SplashPageView.swift:72-73 | the charset has 64 ASCII characters and lacks 'W', and `charset[i]` follows the ranges the literal spells out, so bytes 64..255 are always rejected |
| SplashPage.Accepted | Mettle/SplashPageView.swift:92-95 | the filter never yields more characters than the bytes it has read |
| SplashPage.AcceptedFromCharset | Mettle/SplashPageView.swift:92-95 | every accepted character comes from the charset |
| SplashPage.AcceptedByte | Mettle/SplashPageView.swift:92-95 | a byte is used exactly when it is below `charset.count`, and then as `charset[byte]` |
| SplashPage.AcceptedAppend | Mettle/SplashPageView.swift:87-96 | the filter goes byte by byte: accepted bytes keep their input order |
| SplashPage.AcceptedMonotone | Mettle/SplashPageView.swift:87-96 | reading more bytes only extends the accepted characters |
| SplashPage.ConsumeByte | Mettle/SplashPageView.swift:87-96 | one step of the byte loop keeps the result equal to the first `length` accepted characters of the bytes read so far, with `remainingLength` counting the ones still missing |
| SplashPage.ConsumeBatch | Mettle/SplashPageView.swift:87-96 | after one 16-byte batch, the result is the first `length` accepted characters so far, and `remainingLength` drops by one per accepted byte, never below 0 |
| SplashPage.RandomNonceString | Mettle/SplashPageView.swift:70-100 | it requires `length > 0`; a result has exactly `length` characters, all from the charset, and is the first `length` accepted bytes in order; whole batches are drawn, and no more than needed |
| SplashPage.HexByte | Mettle/SplashPageView.swift:65 | `%02x` gives two lowercase hex digits, the high nibble first |
| SplashPage.HexString | Mettle/SplashPageView.swift:65 | the rendering is lowercase hex, two characters per digest byte |
| SplashPage.HexRoundTrip | Mettle/SplashPageView.swift:62-67 | decoding the hex rendering gives back the digest |
| SplashPage.Utf8 | Mettle/SplashPageView.swift:63 | an ASCII string encodes to one byte per character |
| SplashPage.SplashPageView.ConfigureRequest | Mettle/SplashPageView.swift:32-37 | the raw nonce is stored in `currentNonce`, only the hex of its SHA-256 goes on the request, and the scopes are full name and email |
| CloudKitManager.Database.Listing | Mettle/Models/CloudKitManager.swift:34-36 | the query lists every record once, in the store's order |
| CloudKitManager.Database.Save | Mettle/Models/CloudKitManager.swift:24 | a save stores the record under its identifier; a fault changes nothing |
| CloudKitManager.Database.Perform | Mettle/Models/CloudKitManager.swift:36 | a query returns the listing or the fault and changes no record |
| CloudKitManager.Database.Delete | Mettle/Models/CloudKitManager.swift:63 | a delete removes the record; a fault changes nothing |
| CloudKitManager.NewRecord | Mettle/Models/CloudKitManager.swift:16-22 | the record holds the `liftType` raw value, `date` and `weight`, and a `note` key only when the note is non-nil |
| CloudKitManager.SaveCompletion | Mettle/Models/CloudKitManager.swift:24-30 | a save error goes to the completion unchanged; with neither error nor record the completion is never called |
| CloudKitManager.SaveLiftEntry | Mettle/Models/CloudKitManager.swift:15-31 | the record, under an identifier new to the store, is saved and returned and its identifier is appended to the listing order; or the store's error is passed on unchanged and the store is as before |
| CloudKitManager.NoteOf | Mettle/Models/CloudKitManager.swift:49 | the note is present exactly when the field holds a string |
| CloudKitManager.DecodeRecord | Mettle/Models/CloudKitManager.swift:41-50 | a record is dropped exactly when it lacks a string `liftType` naming a lift, a `Date` date or a `Double` weight; otherwise the entry has the decoded fields and the record's ID, and a missing or wrongly typed note only makes the note nil |
| CloudKitManager.CompactMap | Mettle/Models/CloudKitManager.swift:40-51 | decoding never yields more entries than records |
| CloudKitManager.CompactMapAppend | Mettle/Models/CloudKitManager.swift:40-51 | decoded entries keep the store's record order |
| CloudKitManager.CompactMapFrom | Mettle/Models/CloudKitManager.swift:40-51 | every decoded entry comes from one record |
| CloudKitManager.CompactMapKeeps | Mettle/Models/CloudKitManager.swift:40-51 | every record that decodes shows up in the result |
| CloudKitManager.CompactMapAllSome | Mettle/Models/CloudKitManager.swift:40-51 | when no record is dropped, the count is preserved |
| CloudKitManager.DecodeRecords | Mettle/Models/CloudKitManager.swift:40 | the decoded list is at most as long as the listing |
| CloudKitManager.DecodeRecordsKeeps | Mettle/Models/CloudKitManager.swift:41-50 | every well-formed record yields its entry; a listing with nothing malformed loses nothing |
| CloudKitManager.DecodeEncoded | Mettle/Models/CloudKitManager.swift:16-50 | decoding a record built by `saveLiftEntry` gives back the same lift type, date, weight and note |
| CloudKitManager.SavedEntryIsFetched | Mettle/Models/CloudKitManager.swift:15-55 | an entry saved to the store comes back from a fetch with the record's ID |
| CloudKitManager.FetchCompletion | Mettle/Models/CloudKitManager.swift:36-53 | a query error goes to the completion unchanged; found records are decoded; with neither, the completion is never called |
| CloudKitManager.FetchLiftEntries | Mettle/Models/CloudKitManager.swift:33-55 | a fetch yields the decoded listing; the ids it draws are new and are recorded as issued, so no later entry reuses them; on an error nothing is drawn |
| CloudKitManager.DeleteLiftEntry | Mettle/Models/CloudKitManager.swift:57-70 | with no `recordID`, the result is domain "CloudKitManager", code 404, "Record not found", and the database is not called; otherwise the record is deleted and its identifier leaves the listing order, or the store's error is passed on and records and order are as before |
| LiftTile.MinDate | Mettle/LiftTileView.swift:142 | the minimum is a lift's date and no lift is earlier |
| LiftTile.MaxDate | Mettle/LiftTileView.swift:142 | the maximum is a lift's date and no lift is later |
| LiftTile.ChartDomain | Mettle/LiftTileView.swift:135-151 | one lift: six months back to six months ahead of its date; several: earliest to latest lift date; none: six months either side of "now" |
| LiftTile.ChartDomainCovers | Mettle/LiftTileView.swift:135-151 | lower does not exceed upper, and every lift's date lies within the domain |
| LiftTile.HeaderText | Mettle/LiftTileView.swift:27-38 | with no best lift, the text is "0 lbs."; otherwise it starts with the formatted weight, converted in kilogram mode, and ends with the unit |
| LiftTile.HeaderUnit | Mettle/LiftTileView.swift:30 | the suffix is " kg" exactly when the kilogram setting is on and " lbs" exactly when it is off |
| LiftTile.HeaderFallback | Mettle/LiftTileView.swift:34-35 | without a best lift, the header never shows kilograms |
| Home.OfType | Mettle/HomeView.swift:112 | a group holds exactly the entries of its type |
| Home.Group | Mettle/HomeView.swift:112 | the keys are exactly the types present; each group is the entries of its type, in order, and never empty |
| Home.GroupPartitions | Mettle/HomeView.swift:112 | each entry is in the group of its own lift type, and only there |
| Home.OfRankCovers | Mettle/HomeView.swift:113 | every lift type has a position in raw-value order |
| Home.RankLess | Mettle/HomeView.swift:113 | positions follow ascending raw value |
| Home.ByRawValueListsAll | Mettle/HomeView.swift:113 | the raw-value order lists every lift type |
| Home.ByRawValueIsSorted | Mettle/HomeView.swift:113 | the raw-value order is strictly ascending |
| Home.Only | Mettle/HomeView.swift:113 | the keys kept are exactly those in the grouping |
| Home.OnlyKeepsAscending | Mettle/HomeView.swift:113 | keeping some keys keeps them ascending |
| Home.SortedKeys | Mettle/HomeView.swift:113 | the tile order lists exactly the grouping's keys, strictly ascending by raw value |
| Home.AscendingIsUnique | Mettle/HomeView.swift:113 | any strictly ascending listing of the keys equals the tile order |
| Home.Tiles | Mettle/HomeView.swift:112-118 | each tile holds exactly the entries of a type present, never none |
| Home.TilesOrderedAndComplete | Mettle/HomeView.swift:112-118 | tiles are ascending by raw value, and every entry's lift type has a tile: one tile per type present |
| Home.Rows | Mettle/HomeView.swift:122-130 | "No entries found" is shown exactly when `liftEntries` is empty; otherwise there is one row per entry |
| Home.SortLiftEntriesByDate | Mettle/HomeView.swift:99-101 | the result is a permutation of the input, oldest first |
| Home.HomeViewState.FetchLiftEntries | Mettle/HomeView.swift:185-195 | a successful fetch replaces `liftEntries` wholesale with the decoded listing and records the drawn ids as issued; a failed one leaves both unchanged |
| Home.HomeViewState.OnNeedsRefreshChange | Mettle/HomeView.swift:176-182 | a change to true fetches, recording the drawn ids as issued, and resets the flag; a change to false does nothing |
| PercentageCalculator.PresetsShape | PercentageCalculatorView.swift:4 | the presets are 100 down to 45 in steps of 5: 12 distinct values, all within 0..100 |
| PercentageCalculator.Truncate | PercentageCalculatorView.swift:51 | `Int(newValue)` truncates toward zero |
| PercentageCalculator.TruncateInteger | PercentageCalculatorView.swift:49-51 | converting the slider's own value back gives the same integer |
| PercentageCalculator.Highlighted | PercentageCalculatorView.swift:40-41 | exactly the presets equal to the selection are highlighted |
| PercentageCalculator.AtMostOneHighlighted | PercentageCalculatorView.swift:40-41 | at most one preset is highlighted, and one is exactly when the selection is a preset |
| Home.HomeViewState.constructor | Mettle/HomeView.swift:19-24 | `liftEntries` starts empty and `needsRefresh` false |
| SplashPage.SplashPageView.constructor | Mettle/SplashPageView.swift:14 | `currentNonce` starts as nil |
| PercentageCalculator.PercentageCalculatorState.constructor | PercentageCalculatorView.swift:7-8 | `selectedPercentage` and `lastHapticValue` both start at 100 |
| PercentageCalculator.PercentageCalculatorState.SliderValue | PercentageCalculatorView.swift:49 | the slider shows the selection |
| PercentageCalculator.PercentageCalculatorState.TapPreset | PercentageCalculatorView.swift:32-34 | a tap selects the preset, always fires a haptic, and leaves `lastHapticValue` unchanged |
| PercentageCalculator.PercentageCalculatorState.UpdateSelectedPercentage | PercentageCalculatorView.swift:70-72 | the selection becomes the given value |
| PercentageCalculator.PercentageCalculatorState.SetSliderValue | PercentageCalculatorView.swift:50-56 | the selection becomes `Int(newValue)`; a haptic fires exactly when that differs from `lastHapticValue`, which then equals it; the state stays within 0..100 |

## Left out

- Floating point: weights are exact `real`s. The model leaves out the unit conversion's rounding, `formattedWeight`, `calculatedWeight` and the `/255` colour doubles. The header's number formatting is the parameter `formatted`.
- Randomness and clocks: `SecRandomCopyBytes` is an input byte sequence. `Date()` is the parameter `now`. `randomDateWithin...` and `randomWeight` are not modelled.
- SplashPage.RandomNonceString: the source loops until it has enough characters. The model stops with `None` when its finite input runs out. The `fatalError` on a failed `SecRandomCopyBytes` is not modelled.
- Calendars: month arithmetic is the parameter `addMonths`. The force-unwrap of a failed date computation is not modelled.
- Foreign code: SHA-256 from CryptoKit is a parameter. The model leaves out the Sign in with Apple flow after the request, the CloudKit transport (`CKContainer`, zones, server-side errors other than the injected fault), and UserDefaults persistence.
- Concurrency: every completion runs synchronously. The `DispatchQueue.main.async` hop is left out.
- Logging: the console output of `fetchLiftEntries` in the home view ("fetched" and the error message) is left out.
- CloudKitManager.Database.Delete: when a record does not exist, the model deletes nothing and succeeds. CloudKit's behaviour in that case is not modelled.
- Home.HomeViewState.OnNeedsRefreshChange: SwiftUI calls `onChange` when the value changes. The model is the handler itself; the view framework that calls it is left out.
- Utilities.ScanHexInt64: the scanner's optional "0x" prefix and its 64-bit overflow are not modelled. The colour decoder scans the whole trimmed string, but it uses the value only when the trimmed Character count is 3, 6 or 8. The scanned run is never longer than that count (`Utilities.HexRunWithinCount`), so at most 8 digits matter and no overflow reaches the result.
- Utilities.IsAlphanumeric: non-ASCII letters and digits from `CharacterSet.alphanumerics` are not modelled.
- Utilities.CharacterCount: of Swift's grapheme-cluster rules only CR LF is modelled. Other clusters need non-ASCII characters (combining marks, emoji sequences), and those count one per char here.
- CloudKitManager.Database.Listing: the listing order is the model's choice (save order). The query has no sort descriptors and CloudKit promises no order. The rows under the grid and the order inside each group follow the query's order, and so take on this save order. The tile order and the tile charts do not depend on it.
- DateSort.SortByDate: the model does not promise Swift's order among entries with equal dates.
- Presentation: chart marks, layout, colours other than the decoded components, the settings screen, the add-PR flow, `LiftOverviewView` and the duplicate `LiftTileView` in `HomeView.swift` are left out.
