# ULD status pipeline — a Dafny model

Argos tracks the condition of air-cargo containers (unit load devices, ULDs)
from the warehouse floor to a web dashboard. This project models the core of
that pipeline and proves properties of the model.

1. **The mobile app** photographs a unit and asks a remote detector for the
   damage it sees. It sends those findings to the backend and shows the
   backend's answer. Each scan goes into a history kept per signed-in user
   in the app's preferences.
2. **The backend** asks a language model for a traffic-light report, cleans
   up the answer and stores it. It inserts or updates the unit's row, then
   lists the units with the most recently seen first.
3. **The web dashboard** signs the operator in and restores the token from
   storage or a cookie. It computes the fleet totals, damage breakdown and
   live table. It also filters the damage reports, exports them as a PDF
   document, and keeps the consent, automation and password settings.

Each source file becomes one Dafny module:

| source file | module | form |
|---|---|---|
| MainViewModel.java | `ScanViewModel` | class `MainViewModel` |
| MainViewModel.java | `UserIdentity` | user key and display name |
| MainViewModel.java | `HistoryStore` | history storage |
| YoloProcessor.java | `Detector` | functions |
| HistoryAdapter.java | `HistoryDiff` | predicates |
| main.py | `Registry` | classes `UldReport` and `UldTable` |
| Dashboard.jsx | `FleetDashboard` | functions, plus class `DashboardState` |
| ReportsPage.jsx | `Reports` | functions, plus class `ReportsPage` |
| InventoryManagement.jsx | `AuditLog` | class `InventoryPage` |
| App.jsx | `AppShell` | class `AppState` |
| LoginPage.jsx | `LoginFlow` | class `LoginPage` |
| SettingsPage.jsx | `Settings` | class `SettingsPage` |
| CookiePreferences.jsx | `CookieConsent` | class `CookiePreferencesPage` |

Where the source keeps state and changes it (a React component's `useState`
fields, the view model's `LiveData`, the database table), the model uses a
class. Its methods change only what their `modifies` clause names, and their
`ensures` clauses give the new value of every field they may change. Where the source only computes, the model uses
functions and lemmas.

Some modules are shared:

- `Wrappers`: `Option` and `Result`.
- `Text`: ASCII case mapping, `trim`/`strip`, `split`, `indexOf`, number printing.
- `Json`: stored JSON documents and JavaScript truthiness.
- `Ordering`: a stable descending sort.
- `Percentages`: the damage rate.
- `ScanModel`: the app's records.

Storage, cookies, server answers, clocks and formatters are fields or
parameters:

- A storage entry is an `Option<Blob>`. A blob is the empty text, text that
  does not parse, or a parsed document (`Json.Blob`).
- A server call is an outcome datatype: answered, refused with a body, or
  failed with a message.
- `Date.now()`, ISO dates and locale dates are integer or string parameters.
- `decodeURIComponent`, `String(value)` and `%.2f` are function parameters.

Some properties proved:

- **User keys and history.** The sanitised user key is never empty and is a
  fixed point of sanitising. Two different user keys never share a history
  entry. Different identifiers can sanitise to the same key ("a.b" and
  "a-b", "Alice" and "alice"), and those identifiers do share one.
  Writing a history and reading it back gives the same list. A user who
  switches away and back finds their history again.
- **Scan results.** The display name has no separator characters, and
  splitting it at spaces gives its capitalised words. Every detection gets a
  label that is not blank. The result shown after a scan falls back to the
  severity defaults exactly where the report leaves a field out.
- **Backend.** Upserting a report keeps unit ids unique and row ids fresh.
  Listing is a stable descending sort that permutes the rows. The cleaned-up
  answer has no fences and no surrounding space.
- **Dashboard.** The status counts partition the fleet. The damage rate lies
  in [0, 100] and grows when a green unit turns yellow or red. The damage
  breakdown counts each category of flagged units. The live table is exactly
  the matching units, newest first, with equal times kept in input order.
- **Reports.** The report filter picks exactly the matching rows, in order.
  The history never holds more than 20 reports. The filter line of the PDF
  export parses back to the filter. The export never needs a page break.
- **Sign-in and consent.** The token cookie written at sign-in reads back as
  the token. A stored consent choice is restored as it was saved. The two
  consent pages share one storage entry but read different fields of it (see
  `CookieConsent.PagesReadEachOthersEntry`).

## Model

| member | source | states |
|---|---|---|
| ScanViewModel.NormalizeStatus | ArgosApp/app/src/main/java/com/example/argosapp/MainViewModel.java:240-245 | a missing status reads "unknown"; any other is lower-cased character by character and holds no upper-case letter |
| ScanViewModel.NormalizeStatusIdempotent | ArgosApp/app/src/main/java/com/example/argosapp/MainViewModel.java:240-245 | normalising a normalised status changes nothing |
| ScanViewModel.MapSeverity | ArgosApp/app/src/main/java/com/example/argosapp/MainViewModel.java:247-258 | "green", "yellow" and "red" keep their key; every other status maps to the unknown severity |
| ScanViewModel.MapSeverityByKey | ArgosApp/app/src/main/java/com/example/argosapp/MainViewModel.java:247-258 | a severity is determined by its key, and different severities have different labels |
| ScanViewModel.FormatDetectionLabel | ArgosApp/app/src/main/java/com/example/argosapp/MainViewModel.java:390-400 | a missing or blank label gives the "unknown" text; otherwise the trimmed label with its first letter in upper case and the rest in lower case |
| ScanViewModel.FormatDetectionLabelIdempotent | ArgosApp/app/src/main/java/com/example/argosapp/MainViewModel.java:390-400 | formatting a formatted label changes nothing |
| ScanViewModel.ClampUnit | ArgosApp/app/src/main/java/com/example/argosapp/MainViewModel.java:386 | the confidence is clamped into [0, 1], and a value already inside is kept |
| ScanViewModel.BuildDetectionSummary | ArgosApp/app/src/main/java/com/example/argosapp/MainViewModel.java:381-388 | there is a detection summary exactly when the list is present and not empty; it names the first detection, and its percentage lies in [0, 100] |
| ScanViewModel.ConvertDetectionsToString | ArgosApp/app/src/main/java/com/example/argosapp/MainViewModel.java:260-273 | the loop builds the findings text that the specification function defines |
| ScanViewModel.DetectionsTextShape | ArgosApp/app/src/main/java/com/example/argosapp/MainViewModel.java:260-273 | the text is "no damage" exactly when there are no detections; otherwise it ends with the "); " of the last entry |
| ScanViewModel.DetectionsText | ArgosApp/app/src/main/java/com/example/argosapp/MainViewModel.java:260-273 | no list or an empty one gives "no damage"; any detection gives a longer text that is not "no damage" |
| ScanViewModel.BuildResultFallbacks | ArgosApp/app/src/main/java/com/example/argosapp/MainViewModel.java:179-211 | each field the report leaves out falls back to the severity default or the pending unit id; the result holds exactly one damage detail made of its own title, severity and suggestion |
| ScanViewModel.BuildResult | ArgosApp/app/src/main/java/com/example/argosapp/MainViewModel.java:179-211 | the result keeps the image and the time; its severity label is the one its key maps to; a key other than "unknown" needs a status in the report |
| ScanViewModel.ToHistoryItem | ArgosApp/app/src/main/java/com/example/argosapp/MainViewModel.java:225-233 | the item keeps the unit id, time, severity key and label; a missing image becomes the empty text |
| ScanViewModel.MainViewModel.constructor | ArgosApp/app/src/main/java/com/example/argosapp/MainViewModel.java:55-78 | starts idle for the guest user, with the guest's stored history loaded |
| ScanViewModel.MainViewModel.ResetStatus | ArgosApp/app/src/main/java/com/example/argosapp/MainViewModel.java:146-148 | the status becomes idle and nothing else changes |
| ScanViewModel.MainViewModel.SetPendingImageUri | ArgosApp/app/src/main/java/com/example/argosapp/MainViewModel.java:80-83 | the pending and the last captured image become the given one |
| ScanViewModel.MainViewModel.LoadHistoryForCurrentUser | ArgosApp/app/src/main/java/com/example/argosapp/MainViewModel.java:291-318 | the shown history becomes the one decoded from the current user's entry |
| ScanViewModel.MainViewModel.PersistHistory | ArgosApp/app/src/main/java/com/example/argosapp/MainViewModel.java:320-338 | only the current user's entry changes, and it decodes back to the list written |
| ScanViewModel.MainViewModel.AppendHistory | ArgosApp/app/src/main/java/com/example/argosapp/MainViewModel.java:219-238 | the new item goes first, the stored entry matches the shown history, and the view model's invariant is kept |
| ScanViewModel.MainViewModel.HandleSuccessfulReport | ArgosApp/app/src/main/java/com/example/argosapp/MainViewModel.java:179-217 | the result is built from the report and the pending scan, prepended to the history and persisted; the pending image is cleared |
| ScanViewModel.MainViewModel.CallApi | ArgosApp/app/src/main/java/com/example/argosapp/MainViewModel.java:167-177 | a successful answer with a body becomes the latest result and the first history item, and the current user's stored entry is rewritten with the new history; any other answer sets the "API Error: code message" status and changes nothing else |
| ScanViewModel.MainViewModel.ProcessImageAndUpload | ArgosApp/app/src/main/java/com/example/argosapp/MainViewModel.java:85-125 | no detection is sent as one "normal" detection at confidence 1; the unit id is "ULD-PHOTO-" and the time; success records the result, rewrites the user's stored entry and clears the pending image; an unsuccessful answer sets "API Error: code message" and a failure sets "Processing failed: …", both keeping the history, the stored entry and the pending image; the last captured image never changes |
| ScanViewModel.MainViewModel.SimulateAndUpload | ArgosApp/app/src/main/java/com/example/argosapp/MainViewModel.java:127-144 | the given unit and findings become pending without an image; success records the result and rewrites the user's stored entry; an unsuccessful answer sets "API Error: code message" and a failure sets "Simulation failed: …", both keeping the history and the stored entry |
| ScanViewModel.MainViewModel.UpdateDisplayName | ArgosApp/app/src/main/java/com/example/argosapp/MainViewModel.java:154-161 | the display name and key are derived from the identifier; the history is reloaded from the new key's entry, and is unchanged when the key is the same |
| ScanViewModel.SwitchUserKeepsHistory | ArgosApp/app/src/main/java/com/example/argosapp/MainViewModel.java:154-161 | a user who scans once, switches to any identifier with a different key and back, finds that scan ahead of the history stored under their key before; the other user sees only their own stored history |
| UserIdentity.SkipRun | ArgosApp/app/src/main/java/com/example/argosapp/MainViewModel.java:283 | drops the leading run of characters outside [a-z0-9] and nothing more |
| UserIdentity.CollapseRuns | ArgosApp/app/src/main/java/com/example/argosapp/MainViewModel.java:283 | `replaceAll("[^a-z0-9]+", "_")`: the result holds only [a-z0-9] and '_', never two '_' in a row, and is empty only for empty input |
| UserIdentity.SkipRunKeyChars | ArgosApp/app/src/main/java/com/example/argosapp/MainViewModel.java:283 | skipping a run keeps the [a-z0-9] characters of the text |
| UserIdentity.CollapseRunsKeepsKeyChars | ArgosApp/app/src/main/java/com/example/argosapp/MainViewModel.java:283 | collapsing runs keeps the [a-z0-9] characters in order |
| UserIdentity.CollapseRunsFixedPoint | ArgosApp/app/src/main/java/com/example/argosapp/MainViewModel.java:283 | a well-formed key is left as it is |
| UserIdentity.SkipRunAppend | ArgosApp/app/src/main/java/com/example/argosapp/MainViewModel.java:283 | a run that ends inside the first text is skipped without touching the second |
| UserIdentity.CollapseRunsOfRun | ArgosApp/app/src/main/java/com/example/argosapp/MainViewModel.java:283 | a non-empty run of characters outside [a-z0-9] becomes one '_' |
| UserIdentity.CollapseRunsSplit | ArgosApp/app/src/main/java/com/example/argosapp/MainViewModel.java:283 | collapsing distributes over a split point that no run crosses |
| UserIdentity.SanitizeIdentifier | ArgosApp/app/src/main/java/com/example/argosapp/MainViewModel.java:275-285 | the key is non-empty and well formed, and a missing identifier gives "guest" |
| UserIdentity.SanitizeIdentifierShape | ArgosApp/app/src/main/java/com/example/argosapp/MainViewModel.java:275-285 | the key is never empty and is well formed; a missing or blank identifier gives "guest"; any other gives the trimmed, lower-cased text with each run of characters outside [a-z0-9] replaced by one '_' |
| UserIdentity.SanitizeIdentifierIdempotent | ArgosApp/app/src/main/java/com/example/argosapp/MainViewModel.java:275-285 | sanitising a key gives the same key |
| UserIdentity.UserKeyIsTrimmedLower | ArgosApp/app/src/main/java/com/example/argosapp/MainViewModel.java:279 | trimming and lower-casing a well-formed key change nothing |
| UserIdentity.SplitWhere | ArgosApp/app/src/main/java/com/example/argosapp/MainViewModel.java:354 | splitting at separator characters gives at least one piece |
| UserIdentity.SplitWherePieces | ArgosApp/app/src/main/java/com/example/argosapp/MainViewModel.java:354 | the pieces hold no separator and, joined with the separators between them, give back the text |
| UserIdentity.NonEmptyTokens | ArgosApp/app/src/main/java/com/example/argosapp/MainViewModel.java:356-362 | the tokens kept are non-empty tokens of the input |
| UserIdentity.Capitalize | ArgosApp/app/src/main/java/com/example/argosapp/MainViewModel.java:363-367 | the first letter in upper case and the rest in lower case, same length |
| UserIdentity.CapitalizeIdempotent | ArgosApp/app/src/main/java/com/example/argosapp/MainViewModel.java:363-367 | capitalising a capitalised word changes nothing |
| UserIdentity.CapitalizedWords | ArgosApp/app/src/main/java/com/example/argosapp/MainViewModel.java:356-368 | one word per non-empty token |
| UserIdentity.SpaceSeparators | ArgosApp/app/src/main/java/com/example/argosapp/MainViewModel.java:353 | '_', '.' and '-' become spaces, every other character stays |
| UserIdentity.DeriveDisplayName | ArgosApp/app/src/main/java/com/example/argosapp/MainViewModel.java:340-373 | the builder loop computes the display name that the specification function defines |
| UserIdentity.DisplayNameWords | ArgosApp/app/src/main/java/com/example/argosapp/MainViewModel.java:340-373 | when words remain, the name is the capitalised words joined by single spaces, and splitting it at spaces gives the words back |
| UserIdentity.WordCharsKeep | ArgosApp/app/src/main/java/com/example/argosapp/MainViewModel.java:354-368 | a property held by every non-separator character in both cases holds for every character of every word |
| UserIdentity.CleanedNameChars | ArgosApp/app/src/main/java/com/example/argosapp/MainViewModel.java:346-353 | the cleaned name holds no '_', '.' or '-', and no '@' when the identifier was cut at one |
| UserIdentity.WordsAreNameChars | ArgosApp/app/src/main/java/com/example/argosapp/MainViewModel.java:354-368 | the words hold no separator, and no '@' when the identifier was cut at one |
| UserIdentity.JoinedWordsAreNameChars | ArgosApp/app/src/main/java/com/example/argosapp/MainViewModel.java:356-372 | the words joined by spaces hold no separator, and no '@' after a cut |
| UserIdentity.DisplayNameHasNoSeparators | ArgosApp/app/src/main/java/com/example/argosapp/MainViewModel.java:340-373 | the display name holds no '_', '.' or '-', and no '@' when the identifier had one after its first character |
| UserIdentity.DisplayName | ArgosApp/app/src/main/java/com/example/argosapp/MainViewModel.java:340-373 | a missing or blank identifier shows the default name; any other shows a non-empty name |
| HistoryStore.HistoryKeyInjective | ArgosApp/app/src/main/java/com/example/argosapp/MainViewModel.java:287-289 | two users share a history entry only when their keys are equal |
| HistoryStore.HistoryKey | ArgosApp/app/src/main/java/com/example/argosapp/MainViewModel.java:287-289 | the key is "history_" followed by the user key, nothing more |
| HistoryStore.DecodeEncodeItem | ArgosApp/app/src/main/java/com/example/argosapp/MainViewModel.java:303-312 | an item written as a JSON object reads back unchanged |
| HistoryStore.DecodeEmptyObject | ArgosApp/app/src/main/java/com/example/argosapp/MainViewModel.java:303-312 | an object without fields reads as the defaults: empty texts, severity "unknown", time 0 |
| HistoryStore.EncodeItem | ArgosApp/app/src/main/java/com/example/argosapp/MainViewModel.java:323-332 | an object with exactly the eight item fields, all strings except the time |
| HistoryStore.DecodeItem | ArgosApp/app/src/main/java/com/example/argosapp/MainViewModel.java:303-312 | an object holding none of the fields gives the defaults; a stored string unit id and a stored numeric time are kept |
| HistoryStore.EncodeHistory | ArgosApp/app/src/main/java/com/example/argosapp/MainViewModel.java:320-338 | one array element per item |
| HistoryStore.DecodeHistory | ArgosApp/app/src/main/java/com/example/argosapp/MainViewModel.java:291-318 | a non-empty history comes only from an array whose elements are all objects, one item per element |
| HistoryStore.HistoryRoundTrip | ArgosApp/app/src/main/java/com/example/argosapp/MainViewModel.java:291-338 | a persisted history loads back as the same list |
| HistoryStore.NonObjectElementLosesHistory | ArgosApp/app/src/main/java/com/example/argosapp/MainViewModel.java:299-316 | one element that is not an object makes the whole load yield the empty history |
| HistoryStore.LoadItems | ArgosApp/app/src/main/java/com/example/argosapp/MainViewModel.java:298-317 | the loop succeeds exactly when every element is an object, and then yields the decoded history |
| HistoryStore.BuildArray | ArgosApp/app/src/main/java/com/example/argosapp/MainViewModel.java:321-336 | the loop builds the array that the encoding function defines |
| Detector.MapLabel | ArgosApp/app/src/main/java/com/example/argosapp/yolo/YoloProcessor.java:101-109 | ids 0-2 give "normal", "squash" and "breach"; otherwise a non-blank label sent along, otherwise "class_" and the id |
| Detector.MapLabelNeverBlank | ArgosApp/app/src/main/java/com/example/argosapp/yolo/YoloProcessor.java:101-109 | the name is never blank, and the three known ids get three different names |
| Detector.MapDetection | ArgosApp/app/src/main/java/com/example/argosapp/yolo/YoloProcessor.java:94-96 | the confidence is kept; a present box is kept and a missing one becomes the empty list |
| Detector.PresentAppend | ArgosApp/app/src/main/java/com/example/argosapp/yolo/YoloProcessor.java:89-98 | skipping null entries distributes over concatenation |
| Detector.PresentCount | ArgosApp/app/src/main/java/com/example/argosapp/yolo/YoloProcessor.java:89-98 | exactly the null entries are dropped; with none, every entry is kept in order |
| Detector.MappedDetections | ArgosApp/app/src/main/java/com/example/argosapp/yolo/YoloProcessor.java:85-99 | no list gives no detection; otherwise one detection per non-null entry |
| Detector.MapDetections | ArgosApp/app/src/main/java/com/example/argosapp/yolo/YoloProcessor.java:85-99 | the loop builds the detections that the specification function defines |
| Detector.MappedDetectionsOfWellFormed | ArgosApp/app/src/main/java/com/example/argosapp/yolo/YoloProcessor.java:89-98 | without null entries, every entry keeps its confidence and box and is named by its class |
| Detector.ProcessImage | ArgosApp/app/src/main/java/com/example/argosapp/yolo/YoloProcessor.java:57-75 | no bitmap, a failed call, or an unsuccessful or empty answer gives no detection; a successful answer gives its mapped detections |
| Detector.ProcessImageNonEmpty | ArgosApp/app/src/main/java/com/example/argosapp/yolo/YoloProcessor.java:57-99 | detections reach the app exactly from a successful answer with at least one non-null entry |
| HistoryDiff.Relabel | ArgosApp/app/src/main/java/com/example/argosapp/ui/history/HistoryAdapter.java:126-131 | a row that differs only in the two fields the content check ignores |
| HistoryDiff.AreItemsTheSame | ArgosApp/app/src/main/java/com/example/argosapp/ui/history/HistoryAdapter.java:120-123 | every row is the same item as itself, and the same item means the same unit id |
| HistoryDiff.AreContentsTheSame | ArgosApp/app/src/main/java/com/example/argosapp/ui/history/HistoryAdapter.java:126-131 | every row has its own contents, and with the same item they differ at most in summary and severity label |
| HistoryDiff.DiffPredicatesAreEquivalences | ArgosApp/app/src/main/java/com/example/argosapp/ui/history/HistoryAdapter.java:117-132 | "same item" and "same contents" are reflexive, symmetric and transitive |
| HistoryDiff.RelabelIsInvisible | ArgosApp/app/src/main/java/com/example/argosapp/ui/history/HistoryAdapter.java:120-131 | a change of summary or severity label alone is the same item with the same contents |
| HistoryDiff.BothPredicatesMeansEqualUpToLabels | ArgosApp/app/src/main/java/com/example/argosapp/ui/history/HistoryAdapter.java:120-131 | two rows pass both checks exactly when they are equal up to summary and severity label |
| Registry.ParseTrafficLight | ArgosDashboard/backend/main.py:25-32 | the status field accepts exactly "green", "yellow" and "red" |
| Registry.TrafficLightRoundTrip | ArgosDashboard/backend/main.py:25-28 | a traffic light and its text value convert into each other |
| Registry.GenerateShippingDestination | ArgosDashboard/backend/main.py:69-82 | "HK ➜ " and one of the twelve destinations |
| Registry.UldReport.constructor | ArgosDashboard/backend/main.py:30-44 | a report with the given fields |
| Registry.UldReport.EnsureReportDefaults | ArgosDashboard/backend/main.py:164-167 | the location becomes "HK"; a missing or blank shipping location is replaced by a generated one, any other is kept; nothing else changes |
| Registry.FindFirst | ArgosDashboard/backend/main.py:288-289 | the first row with the unit id, or -1 when there is none |
| Registry.UpsertExisting | ArgosDashboard/backend/main.py:291-302 | a known unit's row takes the report's fields and keeps its row id; the other rows are unchanged |
| Registry.UpsertNew | ArgosDashboard/backend/main.py:303-309 | an unknown unit gets a new row appended with the next row id |
| Registry.Upserted | ArgosDashboard/backend/main.py:288-309 | a known unit keeps the row count; an unknown unit is appended as a new row; either way a row with the unit id and its time is present |
| Registry.UpsertKeepsWellFormed | ArgosDashboard/backend/main.py:283-309 | unit ids stay unique and row ids distinct and below the next id |
| Registry.UldTable.constructor | ArgosDashboard/backend/main.py:45-46 | an empty table whose row ids start at 1 |
| Registry.UldTable.FindRow | ArgosDashboard/backend/main.py:288-289 | the scan finds the first row with the unit id |
| Registry.UldTable.Upsert | ArgosDashboard/backend/main.py:288-309 | the table becomes the upserted rows and stays well formed; the next id grows only on insertion; the saved row is in the table |
| Registry.UldTable.SaveReport | ArgosDashboard/backend/main.py:283-309 | the defaults are applied to the report, and then the report is upserted |
| Registry.UldTable.ListUlds | ArgosDashboard/backend/main.py:368-375 | returns the rows ordered by last seen, newest first |
| Registry.ListedRows | ArgosDashboard/backend/main.py:373-375 | the listing has as many rows as the table |
| Registry.ListedRowsCorrect | ArgosDashboard/backend/main.py:373-375 | the listing is sorted newest first and is a permutation of the table |
| Registry.RemoveFenceHead | ArgosDashboard/backend/main.py:336 | removing fences keeps the first character unless the text starts with a fence |
| Registry.RemoveFenceNoneAtFront | ArgosDashboard/backend/main.py:336 | after the removal, no fence starts the text |
| Registry.RemoveFenceLeavesNone | ArgosDashboard/backend/main.py:336 | removing every "```" leaves no "```", even where removal joins backticks |
| Registry.SliceHasNoFence | ArgosDashboard/backend/main.py:336 | a slice of fence-free text is fence-free |
| Registry.StripKeepsNoFence | ArgosDashboard/backend/main.py:336 | stripping keeps text fence-free and leaves no surrounding whitespace |
| Registry.CleanLlmResponseIsClean | ArgosDashboard/backend/main.py:336 | the cleaned answer holds no fence and no surrounding whitespace |
| Registry.CleanLlmResponse | ArgosDashboard/backend/main.py:336 | the cleaned answer has no surrounding whitespace |
| Registry.ReplaceAbsent | ArgosDashboard/backend/main.py:336 | replacing a pattern whose first character is absent changes nothing |
| Registry.CleanLlmResponseKeepsBareJson | ArgosDashboard/backend/main.py:336 | an answer without backticks and surrounding space passes unchanged |
| FleetDashboard.ComputeTotals | ArgosDashboard/frontend/src/components/Dashboard.jsx:121-128 | the total is the number of units, and the damaged count is yellow plus red |
| FleetDashboard.StatusCountsPartitionTotal | ArgosDashboard/frontend/src/components/Dashboard.jsx:121-124 | green, yellow, red and unrecognised statuses partition the units |
| FleetDashboard.CountStatus | ArgosDashboard/frontend/src/components/Dashboard.jsx:122-124 | a status count never exceeds the number of units |
| FleetDashboard.DamageRateInRange | ArgosDashboard/frontend/src/components/Dashboard.jsx:125-128 | the rate lies in [0, 100]: it is 0 for no units or no damage and 100 when all are damaged; value at risk is 50 000 per red unit, avoidable savings 15 000 per flagged unit |
| FleetDashboard.CountStatusUpdate | ArgosDashboard/frontend/src/components/Dashboard.jsx:122-124 | replacing one unit moves one count from its old status to its new one |
| FleetDashboard.DamageRateMonotone | ArgosDashboard/frontend/src/components/Dashboard.jsx:125-126 | a green unit turning yellow or red raises the damage rate |
| FleetDashboard.BumpEffect | ArgosDashboard/frontend/src/components/Dashboard.jsx:140 | one `set(get + 1)`: the category count grows by one, others stay, names stay distinct |
| FleetDashboard.LookupAbsent | ArgosDashboard/frontend/src/components/Dashboard.jsx:140 | `get` of an absent category counts 0 |
| FleetDashboard.Bump | ArgosDashboard/frontend/src/components/Dashboard.jsx:140 | one increment adds at most one category |
| FleetDashboard.Tally | ArgosDashboard/frontend/src/components/Dashboard.jsx:136-142 | the loop adds at most one category per unit |
| FleetDashboard.DamageEntries | ArgosDashboard/frontend/src/components/Dashboard.jsx:136-145 | at most one category per unit |
| FleetDashboard.TallyEffect | ArgosDashboard/frontend/src/components/Dashboard.jsx:136-142 | the loop adds each flagged unit's category count and the number of flagged units |
| FleetDashboard.DamageEntriesCountCategories | ArgosDashboard/frontend/src/components/Dashboard.jsx:136-145 | the breakdown has distinct names, counts exactly the flagged units of each category, and sums to yellow plus red |
| FleetDashboard.BuildDamageMap | ArgosDashboard/frontend/src/components/Dashboard.jsx:136-142 | the `forEach` loop builds the breakdown that the specification function defines |
| FleetDashboard.FlaggedMeansEntries | ArgosDashboard/frontend/src/components/Dashboard.jsx:136-145 | the breakdown is empty exactly when no unit is yellow or red |
| FleetDashboard.TallyPositive | ArgosDashboard/frontend/src/components/Dashboard.jsx:136-142 | every slice counted stays positive |
| FleetDashboard.BumpPositive | ArgosDashboard/frontend/src/components/Dashboard.jsx:140 | one increment keeps every slice positive |
| FleetDashboard.DamagePieFallback | ArgosDashboard/frontend/src/components/Dashboard.jsx:176-179 | with no flagged unit the pie shows one "No Damage" slice, otherwise the breakdown |
| FleetDashboard.DamagePieData | ArgosDashboard/frontend/src/components/Dashboard.jsx:176-179 | the pie is never empty, and with no breakdown it is the one "No Damage" slice |
| FleetDashboard.FilterUnitsExact | ArgosDashboard/frontend/src/components/Dashboard.jsx:147-155 | the filter keeps exactly the units that match both the search and the status filter |
| FleetDashboard.FilterUnits | ArgosDashboard/frontend/src/components/Dashboard.jsx:147-155 | every unit kept matches the search and the status filter, and none is added |
| FleetDashboard.LiveTable | ArgosDashboard/frontend/src/components/Dashboard.jsx:147-160 | the table never has more units than the fleet |
| FleetDashboard.LiveTableCorrect | ArgosDashboard/frontend/src/components/Dashboard.jsx:147-160 | the table holds exactly the matching units, newest first, with units seen at the same time kept in input order |
| FleetDashboard.FilterAllKeepsEverything | ArgosDashboard/frontend/src/components/Dashboard.jsx:147-155 | an empty search with "all" keeps every unit in order |
| FleetDashboard.LiveTableUnfiltered | ArgosDashboard/frontend/src/components/Dashboard.jsx:147-160 | unfiltered, the table is the sorted fleet, a permutation of it |
| FleetDashboard.DashboardState.constructor | ArgosDashboard/frontend/src/components/Dashboard.jsx:89-93 | no units, loading, no error, empty search and the "all" filter |
| FleetDashboard.DashboardState.FetchData | ArgosDashboard/frontend/src/components/Dashboard.jsx:95-111 | the loading flag clears; data replaces the units, a non-OK answer or a failure keeps them and sets the error message |
| Percentages.PercentBounds | ArgosDashboard/frontend/src/components/Dashboard.jsx:126 | a part of a whole is between 0 and 100 percent, 0 for nothing and 100 for all |
| Percentages.PercentGrows | ArgosDashboard/frontend/src/components/Dashboard.jsx:126 | one more part gives a larger percentage |
| Percentages.Percent | ArgosDashboard/frontend/src/components/Dashboard.jsx:126 | 0 for an empty whole, otherwise the part times 100 divided by the whole |
| Ordering.InsertPermutes | ArgosDashboard/frontend/src/components/Dashboard.jsx:156-160 | insertion adds exactly the element |
| Ordering.Insert | ArgosDashboard/frontend/src/components/Dashboard.jsx:156-160 | insertion adds one element |
| Ordering.InsertSorted | ArgosDashboard/frontend/src/components/Dashboard.jsx:156-160 | insertion keeps a newest-first order |
| Ordering.WithKeyCons | ArgosDashboard/frontend/src/components/Dashboard.jsx:156-160 | the elements with one key, taken from a list with a new head |
| Ordering.InsertKeepsOrderWithinKey | ArgosDashboard/frontend/src/components/Dashboard.jsx:156-160 | insertion places the element before the others with the same key |
| Ordering.SortDescCorrect | ArgosDashboard/frontend/src/components/Dashboard.jsx:156-160 | the sort is newest first and a permutation of its input |
| Ordering.SortDescStable | ArgosDashboard/backend/main.py:373-375 | elements with equal keys keep their relative order |
| Ordering.SortDesc | ArgosDashboard/frontend/src/components/Dashboard.jsx:156-160 | the sort keeps the length |
| Reports.Shift | ArgosDashboard/frontend/src/pages/ReportsPage.jsx:86-92 | every position moves up by one |
| Reports.PositionsStep | ArgosDashboard/frontend/src/pages/ReportsPage.jsx:86-92 | prepending a row keeps the positions aligned with the kept rows |
| Reports.FilterRowsAtPositions | ArgosDashboard/frontend/src/pages/ReportsPage.jsx:86-92 | the k-th kept row is the row at the k-th matching position |
| Reports.MatchingPositionsAscending | ArgosDashboard/frontend/src/pages/ReportsPage.jsx:86-92 | the positions strictly increase, so the filter keeps the rows' order |
| Reports.MatchingPositionsExact | ArgosDashboard/frontend/src/pages/ReportsPage.jsx:86-92 | a position is kept exactly when its row matches both type and location |
| Reports.ExactStep | ArgosDashboard/frontend/src/pages/ReportsPage.jsx:86-92 | prepending a row keeps the positions exactly the matching ones |
| Reports.FilterAllIsIdentity | ArgosDashboard/frontend/src/pages/ReportsPage.jsx:86-92 | "all" and "all" keep every row |
| Reports.FilterRows | ArgosDashboard/frontend/src/pages/ReportsPage.jsx:86-92 | every kept row matches both filters, and none is added |
| Reports.AkeReport | ArgosDashboard/frontend/src/pages/ReportsPage.jsx:6-57 | the AKE filter over the fixed records gives the first, fourth and fifth |
| Reports.MakeMeta | ArgosDashboard/frontend/src/pages/ReportsPage.jsx:94-102 | the id starts with "RPT-", the parameters are the filter's, the total is the row count |
| Reports.PushHistoryShape | ArgosDashboard/frontend/src/pages/ReportsPage.jsx:106 | the new report comes first, followed by the older ones in order, capped at 20 |
| Reports.HistoryBounded | ArgosDashboard/frontend/src/pages/ReportsPage.jsx:106 | however many reports are generated, the history never exceeds 20 and starts with the latest |
| Reports.PushHistory | ArgosDashboard/frontend/src/pages/ReportsPage.jsx:106 | the new report comes first, and the history holds between 1 and 20 reports |
| Reports.CutLabelledPair | ArgosDashboard/frontend/src/pages/ReportsPage.jsx:116-120 | a labelled pair splits back at its first comma |
| Reports.FilterLineRoundTrip | ArgosDashboard/frontend/src/pages/ReportsPage.jsx:116-120 | the export's filter line parses back to the type and location filter |
| Reports.FilterLine | ArgosDashboard/frontend/src/pages/ReportsPage.jsx:116-120 | the line starts "Filters - Type: ", and with both filters at "all" reads "All" twice |
| Reports.OptionsHaveNoComma | ArgosDashboard/frontend/src/pages/ReportsPage.jsx:66-67 | the option values meet the round trip's conditions |
| Reports.ReportsPage.constructor | ArgosDashboard/frontend/src/pages/ReportsPage.jsx:70-79 | the initial filter, all records, no report and an empty history |
| Reports.ReportsPage.HandleFilterChange | ArgosDashboard/frontend/src/pages/ReportsPage.jsx:81-83 | one filter field takes the new value, nothing else changes |
| Reports.ReportsPage.GenerateReport | ArgosDashboard/frontend/src/pages/ReportsPage.jsx:85-108 | the results are the filtered records, the meta describes them, and it goes first in the capped history |
| Reports.ReportsPage.ExportPdf | ArgosDashboard/frontend/src/pages/ReportsPage.jsx:110-141 | the header, at most 12 numbered rows 8 apart from y = 48, then the save; y never passes 136, so no page is ever added |
| AuditLog.LogsFor | ArgosDashboard/frontend/src/pages/InventoryManagement.jsx:82-89 | a unit with a stored log gets exactly that log; any other gets the single no-activity entry |
| AuditLog.LogsForNonEmpty | ArgosDashboard/frontend/src/pages/InventoryManagement.jsx:85-87 | with non-empty stored logs, the modal always shows at least one entry |
| AuditLog.StoredLogExample | ArgosDashboard/frontend/src/pages/InventoryManagement.jsx:68-77 | the stored unit has six entries ending "In Repair", and every other unit shows the sentinel |
| AuditLog.InventoryPage.constructor | ArgosDashboard/frontend/src/pages/InventoryManagement.jsx:80 | no modal open |
| AuditLog.InventoryPage.OpenHistory | ArgosDashboard/frontend/src/pages/InventoryManagement.jsx:82-89 | the modal opens on the unit with its log or the sentinel |
| AuditLog.InventoryPage.CloseHistory | ArgosDashboard/frontend/src/pages/InventoryManagement.jsx:91 | the modal closes |
| AppShell.FindStartingWith | ArgosDashboard/frontend/src/App.jsx:49-51 | the first entry with the prefix, or -1 exactly when there is none |
| AppShell.GetCookieValue | ArgosDashboard/frontend/src/App.jsx:47-53 | no value exactly when no entry starts with `name=` |
| AppShell.GetCookieValueTruncates | ArgosDashboard/frontend/src/App.jsx:52 | the value is cut at the entry's second '=' |
| AppShell.EntryValue | ArgosDashboard/frontend/src/App.jsx:52 | the second '='-piece of `name=…` is the text after `name=` up to the next '=' |
| AppShell.TokenCookieReadsBack | ArgosDashboard/frontend/src/App.jsx:47-53 | a token without ';' or '=' written as `argos-token=token` reads back as that token |
| AppShell.InitialTheme | ArgosDashboard/frontend/src/App.jsx:26-39 | a stored "light" or "dark" wins; anything else follows the system preference |
| AppShell.Toggled | ArgosDashboard/frontend/src/App.jsx:82-84 | the theme is light or dark and differs from the old one |
| AppShell.ToggleTwice | ArgosDashboard/frontend/src/App.jsx:82-84 | toggling twice restores the theme |
| AppShell.ResolveTokenFirstWins | ArgosDashboard/frontend/src/App.jsx:72-77 | local storage, then session storage, then the cookie; there is a token exactly when some source has one |
| AppShell.ResolveToken | ArgosDashboard/frontend/src/App.jsx:72-77 | the token is one of the three sources, and a truthy local one wins |
| AppShell.RenderPage | ArgosDashboard/frontend/src/App.jsx:101-113 | each of the three named pages maps to its view, and nothing maps to the login page |
| AppShell.UnknownPageIsDashboard | ArgosDashboard/frontend/src/App.jsx:101-113 | any other page name shows the dashboard |
| AppShell.AppState.constructor | ArgosDashboard/frontend/src/App.jsx:42-68 | the initial theme is stored, the page is the dashboard, and with no token the login page shows |
| AppShell.AppState.RestoreToken | ArgosDashboard/frontend/src/App.jsx:70-80 | the resolved token signs in when there is one; otherwise the state is unchanged |
| AppShell.AppState.ToggleTheme | ArgosDashboard/frontend/src/App.jsx:55-68 | the theme flips and is stored |
| AppShell.AppState.HandleLoginSuccess | ArgosDashboard/frontend/src/App.jsx:86-88 | the token is kept, and a non-empty one shows the active page |
| AppShell.AppState.HandleLogout | ArgosDashboard/frontend/src/App.jsx:90-99 | both stored tokens go, the expiring cookie is written, and the login page shows with the dashboard next |
| AppShell.AppState.Navigate | ArgosDashboard/frontend/src/App.jsx:174 | the active page changes, and a signed-in user sees it |
| LoginFlow.ChoiceOf | ArgosDashboard/frontend/src/pages/LoginPage.jsx:26-31 | the flags are the stored values' truthiness; a truthy stored decision is kept, any other becomes "custom" |
| LoginFlow.RestoreStored | ArgosDashboard/frontend/src/pages/LoginPage.jsx:21-38 | garbled text or a stored `null` is discarded; nothing or an empty string keeps the initial state; any other document is restored |
| LoginFlow.PersistRestoreRoundTrip | ArgosDashboard/frontend/src/pages/LoginPage.jsx:21-59 | a saved choice with a truthy decision is restored exactly |
| LoginFlow.PersistedChoiceNecessary | ArgosDashboard/frontend/src/pages/LoginPage.jsx:50-57 | the stored choice always marks necessary cookies as accepted and records the time |
| LoginFlow.PersistedChoice | ArgosDashboard/frontend/src/pages/LoginPage.jsx:50-57 | the stored object accepts necessary cookies and reads back with the same two flags |
| LoginFlow.SubmitError | ArgosDashboard/frontend/src/pages/LoginPage.jsx:108-111 | a failed submission never shows an empty message |
| LoginFlow.SubmitErrorMessages | ArgosDashboard/frontend/src/pages/LoginPage.jsx:108-111 | without a usable `detail` the message is "Invalid credentials"; a string `detail` is shown as is |
| LoginFlow.TokenCookieAttributes | ArgosDashboard/frontend/src/pages/LoginPage.jsx:120-128 | the token, path and SameSite attributes, plus a seven-day lifetime when remembered |
| LoginFlow.LoginCookieReadsBack | ArgosDashboard/frontend/src/pages/LoginPage.jsx:120-128 | the shell reads the written cookie back as the token |
| LoginFlow.BuildTokenCookie | ArgosDashboard/frontend/src/pages/LoginPage.jsx:120-128 | the cookie is the attributes joined by "; " |
| LoginFlow.SevenDaysAttribute | ArgosDashboard/frontend/src/pages/LoginPage.jsx:126 | `60 * 60 * 24 * 7` seconds prints as "Max-Age=604800" |
| LoginFlow.LoginPage.constructor | ArgosDashboard/frontend/src/pages/LoginPage.jsx:6-19 | an empty form, no consent yet, and the banner and modal open |
| LoginFlow.LoginPage.RestoreCookiePrefs | ArgosDashboard/frontend/src/pages/LoginPage.jsx:21-38 | a restored choice closes the banner; a discarded entry is removed; otherwise nothing changes |
| LoginFlow.LoginPage.Decide | ArgosDashboard/frontend/src/pages/LoginPage.jsx:47-59 | the choice is taken and stored, and the banner and modal close |
| LoginFlow.LoginPage.AcceptAll | ArgosDashboard/frontend/src/pages/LoginPage.jsx:61-67 | both flags on with "accept_all", stored |
| LoginFlow.LoginPage.RejectAll | ArgosDashboard/frontend/src/pages/LoginPage.jsx:69-79 | both flags off with "reject_all", stored |
| LoginFlow.LoginPage.SaveChoice | ArgosDashboard/frontend/src/pages/LoginPage.jsx:81-87 | the current flags with "custom", stored |
| LoginFlow.LoginPage.ToggleConsent | ArgosDashboard/frontend/src/pages/LoginPage.jsx:89-92 | one flag takes the new value, and nothing is stored |
| LoginFlow.LoginPage.HandleChange | ArgosDashboard/frontend/src/pages/LoginPage.jsx:40-45 | one form field takes the input, and the error clears |
| LoginFlow.LoginPage.HandleSubmit | ArgosDashboard/frontend/src/pages/LoginPage.jsx:94-135 | a token goes to local storage when remembered, else to session storage; the cookie is written and the token handed on; a failure sets the error and stores nothing; loading ends |
| Settings.CheckPasswordForm | ArgosDashboard/frontend/src/pages/SettingsPage.jsx:126-133 | the request goes out exactly when both passwords are filled in and the new one is confirmed |
| Settings.CheckPasswordFormOrder | ArgosDashboard/frontend/src/pages/SettingsPage.jsx:126-133 | a missing field is reported before a mismatch, and a mismatch only when both are filled |
| Settings.PasswordError | ArgosDashboard/frontend/src/pages/SettingsPage.jsx:147-158 | a failure never shows an empty message; an object body without a truthy `detail` shows "Failed to update password.", a `null` body the TypeError text, and a failed request its message or "Unable to update password." |
| Settings.ToggledRules | ArgosDashboard/frontend/src/pages/SettingsPage.jsx:111-113 | the rule becomes the negation of its truthiness, and the other rules stay |
| Settings.ToggleTwiceRestores | ArgosDashboard/frontend/src/pages/SettingsPage.jsx:111-113 | toggling a boolean rule twice restores the rules |
| Settings.SettingsPage.constructor | ArgosDashboard/frontend/src/pages/SettingsPage.jsx:21-99 | a non-empty stored photo replaces the default one; a stored object replaces the default rules and text that does not parse keeps them; the rules shown are stored; the password form is empty |
| Settings.SettingsPage.ToggleAutomationRule | ArgosDashboard/frontend/src/pages/SettingsPage.jsx:93-113 | the rules are toggled and stored |
| Settings.SettingsPage.HandleAutomationInputChange | ArgosDashboard/frontend/src/pages/SettingsPage.jsx:93-117 | one rule takes the text and is stored |
| Settings.SettingsPage.HandlePasswordInputChange | ArgosDashboard/frontend/src/pages/SettingsPage.jsx:119-123 | one password field takes the input, and the status clears |
| Settings.SettingsPage.SavePassword | ArgosDashboard/frontend/src/pages/SettingsPage.jsx:125-162 | a request goes out exactly when the form passes its checks; success clears the form; every failure reports a message; loading ends |
| Settings.SettingsPage.HandlePhotoUpload | ArgosDashboard/frontend/src/pages/SettingsPage.jsx:186-198 | a read photo is shown and stored; nothing read changes nothing |
| Settings.SettingsPage.HandleDeletePhoto | ArgosDashboard/frontend/src/pages/SettingsPage.jsx:200-202 | the default photo shows, and the stored photo is removed |
| CookieConsent.MergeDefaults | ArgosDashboard/frontend/src/pages/CookiePreferences.jsx:76 | `{...defaults, ...parsed}`: the stored entries win, and the defaults fill the rest |
| CookieConsent.MergeDefaultsOfStored | ArgosDashboard/frontend/src/pages/CookiePreferences.jsx:70-89 | preferences that hold every default key load back as saved |
| CookieConsent.CookiePreferencesPage.RowChecked | ArgosDashboard/frontend/src/pages/CookiePreferences.jsx:141-169 | the necessary row is always checked; the others show their preference's truthiness |
| CookieConsent.CookiePreferencesPage.constructor | ArgosDashboard/frontend/src/pages/CookiePreferences.jsx:67-68 | the default preferences and no status |
| CookieConsent.CookiePreferencesPage.Load | ArgosDashboard/frontend/src/pages/CookiePreferences.jsx:70-81 | a parsed entry is merged over the defaults; nothing or text that does not parse keeps them |
| CookieConsent.CookiePreferencesPage.Persist | ArgosDashboard/frontend/src/pages/CookiePreferences.jsx:83-89 | the preferences are stored and the consent cookie written |
| CookieConsent.CookiePreferencesPage.HandleToggle | ArgosDashboard/frontend/src/pages/CookiePreferences.jsx:91-94 | one key takes the value, the others stay, and the status clears |
| CookieConsent.CookiePreferencesPage.ToggleRow | ArgosDashboard/frontend/src/pages/CookiePreferences.jsx:141-169 | the necessary row cannot change; any other row's key is set to the negation of its checked state, the status clears, and no other row changes |
| CookieConsent.CookiePreferencesPage.HandleSave | ArgosDashboard/frontend/src/pages/CookiePreferences.jsx:96-99 | the preferences are stored as they are, with status "saved" |
| CookieConsent.CookiePreferencesPage.HandleAcceptAll | ArgosDashboard/frontend/src/pages/CookiePreferences.jsx:101-111 | every category is accepted and stored, every row is checked, with status "accepted" |
| CookieConsent.PagesReadEachOthersEntry | ArgosDashboard/frontend/src/pages/CookiePreferences.jsx:3-10 | the two pages share one entry: "accept all" here restores on the sign-in page as both flags off and "custom", and a sign-in choice read here leaves the three optional categories at their defaults |
| Json.Member | ArgosDashboard/frontend/src/pages/LoginPage.jsx:26-35 | reading a property of `null` fails, and a present key reads its value |
| Json.OptString | ArgosApp/app/src/main/java/com/example/argosapp/MainViewModel.java:304-310 | a missing key gives the fallback; a string is kept; a boolean prints as "true" or "false"; `null` prints as "null" |
| Json.OptLong | ArgosApp/app/src/main/java/com/example/argosapp/MainViewModel.java:311 | a number is kept; anything else gives the fallback |

## Left out

- **Characters.** Case mapping and whitespace are ASCII only. Java's
  `Locale.getDefault()` and Unicode case rules are not modelled, and neither
  is the full Unicode `\s` of JavaScript and Python.
- **JSON text.** JSON is modelled at the document level. `JSON.parse`,
  `JSON.stringify`, `json.loads`, `JSONArray` and `JSONObject` are library
  code. A stored string is the document it encodes, so
  `parse(stringify(v)) == v` is taken as given. Number kinds, key order and
  the reasons text fails to parse are not modelled.
- **Numbers.**
  - Floating point is modelled as `real`.
  - `String.format("%.2f")` and `Number.toFixed(1)` are a formatter
    parameter or are not applied: the damage rate is kept as an exact
    rational.
  - `Math.round` of the confidence percentage is modelled only by its bounds
    and end points.
- **`adjustAlpha`** and every colour and rendering detail are not modelled:
  JSX markup, icons, charts, modals as pictures, layout.
- **Threads and asynchrony.** LiveData, executors, `postValue`, `useEffect`
  timing and React batching are not modelled. Each handler runs to
  completion, so these intermediate states are left out: loading,
  "Processing", `setLoading(true)`, `setPasswordLoading(true)`.
- **`setInterval`** polling of the fleet (Dashboard.jsx:113-118) is left out.
  One fetch is modelled, with its outcome as a parameter.
- **The `useMemo` dependency list** at Dashboard.jsx:182 omits
  `statusFilter`. The model computes the table from both filters every time,
  so the stale table that React would show after a status change alone is
  not modelled.
- **I/O.** The network, preferences files, `localStorage`, `sessionStorage`,
  `document.cookie` and the database are fields or outcome parameters. HTTP
  codes and messages are parameters. The SQL session and commits are left
  out, and the table is a sequence of rows.
- **Clocks and randomness.** `Date.now()`, `toISOString`, `toLocaleString`
  and `System.currentTimeMillis()` are parameters. Timestamps are integers,
  so unparseable dates are not modelled. `random.choice` is an arbitrary
  choice.
- **Ordering of equal times.** The source's `ORDER BY last_seen DESC` leaves
  rows with equal `last_seen` in an order the database chooses. The model
  uses a stable sort.
- **Unused filters.** The report date range is captured but never used by
  the source, so the model ignores it too.
- **Backend outside the upsert.** Credentials, password hashing, the login
  and update-password endpoints, the language-model prompt and call, and
  the YOLO inference are left out. Only the cleanup of the model's answer
  and the saved report are modelled.
- **Settings page.** The personal details and display preferences are not
  modelled: neither their load at mount (SettingsPage.jsx:54-74) nor
  `savePersonalInfo`/`savePreferences` (SettingsPage.jsx:164-180). The
  photo and automation rules restored at mount are modelled.
- Settings.SettingsPage.constructor: a stored automation entry that parses to
  something other than an object (a number, an array, `null`) keeps the
  default rules. The page would hold that value as its rules.
- **Server-side rendering.** The `typeof window` guards are not modelled: a
  browser is assumed.
- **Foreign functions.** `decodeURIComponent`, `encodeURIComponent` and
  JavaScript's `String(value)` are function parameters. The text of the
  TypeError raised on a `null` body is a constant.
- AppShell.GetCookieValue: `decode` is a total function. `decodeURIComponent`
  throws a `URIError` on a malformed escape (a cookie `argos-token=%E0`), and
  that exception is not modelled.
- Json.OptString: an array or an object gives the fallback. Android's
  `optString` would give its JSON text.
- Json.OptLong: a string gives the fallback. Android's `optLong` would parse
  a numeric string.
- **A successful sign-in** is modelled as a token string. A body that is not
  JSON, or one without `token`, is not modelled.
- **`split("\\s+")`** in `deriveDisplayName` is modelled as a split at every
  whitespace character followed by dropping the empty pieces. That gives the
  same words.
- Json.SpreadEntries: spreading an array or a string copies no entries in the
  model. JavaScript would copy their indices, which never match the
  preference keys.
- AuditLog.LogsFor: its contract is the lookup itself. The property proved
  about it is `AuditLog.LogsForNonEmpty`.
