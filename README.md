# Parking permit sync — a Dafny model

This project models the logic of the parking-permit Android app. The app:

- fetches the current parking permit as JSON from a URL;
- caches the permit in the app's preferences;
- serves the permit over Bluetooth LE, as a GATT characteristic that a parking
  display reads in 512-byte chunks;
- pushes a "SYNC" or "FORCE" command to that display;
- shows the current permit with an expiry badge and an estimate of the next one;
- re-syncs every day at 3 AM.

There is one Dafny module per Java class:

| module | Java class | form |
|---|---|---|
| `PermitData` | `PermitData` | datatypes and predicates |
| `PermitStore` | `PermitRepository` | a class over a preferences map |
| `GitHubSync` | `GitHubSyncTask` | a decision function, and a class whose `Sync` method writes the repository |
| `GattServer` | `BleGattService` | chunk functions, an `arraycopy` loop, and a class for the server and advertiser handles |
| `DisplaySync` | `DisplaySyncHelper` | a class whose fields the callbacks update; each method is tied to a transition function on a state value |
| `StatusView` | the decisions inside `BleStatusFragment` | functions |
| `TimeUtils` | `TimeUtils` | functions |
| `Alarm` | `AlarmReceiver` | functions |

Two more modules hold shared pieces:

- `JavaLang` gives the Java semantics the code relies on:
  - null references;
  - truncating `long` division;
  - `Long.toString`;
  - `String.trim`, `lastIndexOf` and `split(":")[0]`.
- `Utf8` is `getBytes(UTF_8)`.

What the outside world does is passed in as parameters:

- the clock value `now`;
- the HTTP result, a function of the URL;
- the JSON codec, a pair of functions `toJson` and `fromJson`;
- the date parsers and formatters;
- the answers of the Bluetooth stack.

A runtime exception that escapes a step is modelled as `None` or `Crashed`.

## Model

| member | source | states |
|---|---|---|
| `PermitData.DefaultPermit` | app/src/main/java/com/visproj/parkingpermitsync/PermitData.java:8-34 | every string field starts as "" and the flag as false, so the default permit is neither valid nor complete |
| `PermitData.NewPermit` | app/src/main/java/com/visproj/parkingpermitsync/PermitData.java:36-44 | the six-argument constructor sets exactly those six fields and leaves vehicle name, price and the flag at their defaults; the result is valid iff the number is non-null and non-empty |
| `PermitData.IsValid` | app/src/main/java/com/visproj/parkingpermitsync/PermitData.java:46-48 | a permit is valid iff its number is non-null and non-empty |
| `PermitData.IsComplete` | app/src/main/java/com/visproj/parkingpermitsync/PermitData.java:51-58 | a complete permit is valid |
| `PermitData.CompleteIgnoresExtras` | app/src/main/java/com/visproj/parkingpermitsync/PermitData.java:46-58 | neither `isValid` nor `isComplete` depends on vehicle name, price or the orientation flag |
| `PermitData.NewPermitComplete` | app/src/main/java/com/visproj/parkingpermitsync/PermitData.java:36-58 | a permit built by the six-argument constructor is complete iff all six arguments are non-null and non-empty |
| `PermitData.Normalized` | app/src/main/java/com/visproj/parkingpermitsync/PermitData.java:8-34 | a JSON round trip (nulls left out, constructor defaults kept) preserves validity, completeness, a non-null number and the flag, and leaves the number and the dates non-null |
| `PermitData.NormalizedNoNulls` | app/src/main/java/com/visproj/parkingpermitsync/PermitData.java:8-34 | a permit without null fields survives the JSON round trip unchanged |
| `PermitStore.CachedPermit` | app/src/main/java/com/visproj/parkingpermitsync/PermitRepository.java:25-34 | `getPermit` is null when nothing is stored or when the stored JSON decodes to null or throws, and is otherwise the decoded permit |
| `PermitStore.LastSyncTime` | app/src/main/java/com/visproj/parkingpermitsync/PermitRepository.java:43-45 | the last-sync time is 0 when absent, else the stored value |
| `PermitStore.GitHubUrl` | app/src/main/java/com/visproj/parkingpermitsync/PermitRepository.java:47-49 | the URL is the built-in default when absent, else the stored string |
| `PermitStore.SavedPrefs` | app/src/main/java/com/visproj/parkingpermitsync/PermitRepository.java:36-41 | saving writes the permit's JSON and the clock value under their keys and keeps every other key |
| `PermitStore.UrlPrefs` | app/src/main/java/com/visproj/parkingpermitsync/PermitRepository.java:51-53 | setting a URL writes it; setting null removes the key; every other key is kept |
| `PermitStore.SaveThenGet` | app/src/main/java/com/visproj/parkingpermitsync/PermitRepository.java:25-49 | after saving p, `getPermit` gives p as the JSON round trip leaves it, `getLastSyncTime` gives the clock value, and the URL is unchanged |
| `PermitStore.SetUrlThenGet` | app/src/main/java/com/visproj/parkingpermitsync/PermitRepository.java:25-53 | after setting the URL it reads back (the default after null), and the cached permit and sync time are unchanged |
| `PermitStore.EmptyPrefs` | app/src/main/java/com/visproj/parkingpermitsync/PermitRepository.java:25-49 | a fresh file has no permit, sync time 0 and the default URL |
| `PermitStore.PermitRepository.constructor` | app/src/main/java/com/visproj/parkingpermitsync/PermitRepository.java:20-23 | the repository is a view over the preferences file as it is |
| `PermitStore.PermitRepository.GetPermit` | app/src/main/java/com/visproj/parkingpermitsync/PermitRepository.java:25-34 | reads the cached permit from the current preferences |
| `PermitStore.PermitRepository.GetLastSyncTime` | app/src/main/java/com/visproj/parkingpermitsync/PermitRepository.java:43-45 | reads the last-sync time from the current preferences |
| `PermitStore.PermitRepository.GetGitHubUrl` | app/src/main/java/com/visproj/parkingpermitsync/PermitRepository.java:47-49 | reads the URL from the current preferences |
| `PermitStore.PermitRepository.SavePermit` | app/src/main/java/com/visproj/parkingpermitsync/PermitRepository.java:36-41 | the preferences become the saved file; the permit reads back round-tripped, the sync time is now, the URL unchanged |
| `PermitStore.PermitRepository.SetGitHubUrl` | app/src/main/java/com/visproj/parkingpermitsync/PermitRepository.java:51-53 | the preferences become the file with the new URL; the permit and sync time read back unchanged |
| `GitHubSync.IsNewPermit` | app/src/main/java/com/visproj/parkingpermitsync/GitHubSyncTask.java:67-69 | `isNew` holds iff nothing was cached or the cached number differs; a cached permit with a null number throws |
| `GitHubSync.Decide` | app/src/main/java/com/visproj/parkingpermitsync/GitHubSyncTask.java:42-81 | an IOException reports its message; a non-2xx status reports "HTTP <code>"; null or invalid data reports "Invalid permit data"; a decode exception ends the sync with no callback; success carries the decoded valid permit and `isNew` |
| `GitHubSync.ValidFetchSyncs` | app/src/main/java/com/visproj/parkingpermitsync/GitHubSyncTask.java:59-74 | a 2xx response that decodes to a valid permit syncs that permit unless the cached number is null |
| `GitHubSync.ResyncIsNewIffNumberChanged` | app/src/main/java/com/visproj/parkingpermitsync/GitHubSyncTask.java:67-71 | after saving p, syncing q reports `isNew` iff q's number differs from p's, so the same number twice is not new |
| `GitHubSync.FirstSyncIsNew` | app/src/main/java/com/visproj/parkingpermitsync/GitHubSyncTask.java:67-69 | the first sync into an empty cache is new |
| `GitHubSync.GitHubSyncTask.constructor` | app/src/main/java/com/visproj/parkingpermitsync/GitHubSyncTask.java:33-40 | the sync job owns the given repository |
| `GitHubSync.GitHubSyncTask.Sync` | app/src/main/java/com/visproj/parkingpermitsync/GitHubSyncTask.java:42-81 | the outcome is the decision for the fetched URL and the permit cached before; the permit is saved exactly when the outcome is a success, and otherwise the preferences are unchanged |
| `JavaLang.Quot` | app/src/main/java/com/visproj/parkingpermitsync/TimeUtils.java:12-15 | Java's `/` on `long`: equals floor division for a non-negative dividend and is at most 0 for a negative one |
| `JavaLang.QuotRemainder` | app/src/main/java/com/visproj/parkingpermitsync/TimeUtils.java:12-15 | the remainder of Java's division has the dividend's sign and is smaller than the divisor |
| `JavaLang.QuotUnique` | app/src/main/java/com/visproj/parkingpermitsync/TimeUtils.java:12-15 | the quotient is the only number that leaves a remainder of the dividend's sign smaller than the divisor |
| `JavaLang.QuotAtMost` | app/src/main/java/com/visproj/parkingpermitsync/BleStatusFragment.java:416-419 | a truncated day count is at most k iff the time left is less than k + 1 days, negative times included |
| `JavaLang.NatToStringRoundTrip` | app/src/main/java/com/visproj/parkingpermitsync/TimeUtils.java:19-29 | the decimal text of a count reads back as that count |
| `JavaLang.SplitHead` | app/src/main/java/com/visproj/parkingpermitsync/BleStatusFragment.java:466-467 | `split(":")[0]` is the text before the first ':', and throws only for a non-empty string made of ':' alone |
| `JavaLang.LastIndexOf` | app/src/main/java/com/visproj/parkingpermitsync/BleStatusFragment.java:476-477 | `lastIndexOf` finds the last occurrence, and -1 iff there is none |
| `JavaLang.Trim` | app/src/main/java/com/visproj/parkingpermitsync/BleStatusFragment.java:466-477 | `trim` leaves no character <= U+0020 at either end and keeps a string that has none |
| `Utf8.EncodeChar` | app/src/main/java/com/visproj/parkingpermitsync/BleGattService.java:202 | each character encodes as 1 to 4 bytes: a lone byte exactly for ASCII, else a lead byte and continuation bytes |
| `Utf8.Encode` | app/src/main/java/com/visproj/parkingpermitsync/BleGattService.java:202 | a text encodes to between one and four bytes per character |
| `Utf8.EncodeAppend` | app/src/main/java/com/visproj/parkingpermitsync/BleGattService.java:202 | encoding a concatenation concatenates the encodings |
| `Utf8.EncodeAscii` | app/src/main/java/com/visproj/parkingpermitsync/BleGattService.java:200-202 | an ASCII text encodes to one byte per character, each byte its code |
| `GattServer.Payload` | app/src/main/java/com/visproj/parkingpermitsync/BleGattService.java:200-202 | the served bytes are the UTF-8 of the cached permit's JSON, or of "{}" when nothing is cached |
| `GattServer.EmptyCachePayload` | app/src/main/java/com/visproj/parkingpermitsync/BleGattService.java:200-202 | with no cached permit the payload is the two bytes 123, 125 |
| `GattServer.Chunk` | app/src/main/java/com/visproj/parkingpermitsync/BleGattService.java:207-211 | at or past the end the answer is empty; otherwise it is the non-empty slice of the payload starting at the offset, 512 bytes or up to the end, never more than 512 |
| `GattServer.ReadFrom` | app/src/main/java/com/visproj/parkingpermitsync/BleGattService.java:207-212 | reading at offset, offset + 512, … until a short answer collects exactly the payload from offset on |
| `GattServer.ReadsRebuildPayload` | app/src/main/java/com/visproj/parkingpermitsync/BleGattService.java:207-212 | the reads from offset 0 rebuild the whole payload, and the first answer is min(length, 512) bytes |
| `GattServer.ArrayCopy` | app/src/main/java/com/visproj/parkingpermitsync/BleGattService.java:210-211 | `System.arraycopy` puts the source range into the destination at the given position and changes nothing else |
| `GattServer.TeardownCalls` | app/src/main/java/com/visproj/parkingpermitsync/BleGattService.java:252-266 | teardown stops advertising iff there is an advertiser and advertising started, closes the server iff there is one, and stops before closing |
| `GattServer.BleGattService.constructor` | app/src/main/java/com/visproj/parkingpermitsync/BleGattService.java:54-64 | a new service holds no handles, is not advertising, and has made no calls |
| `GattServer.BleGattService.StartBleServer` | app/src/main/java/com/visproj/parkingpermitsync/BleGattService.java:97-161 | nothing happens without an enabled adapter and permissions; the server handle becomes what opening returned, unless opening threw; advertising is requested only after the service was added; the advertising flag is untouched |
| `GattServer.BleGattService.OnStartSuccess` | app/src/main/java/com/visproj/parkingpermitsync/BleGattService.java:164-168 | a confirmed start sets the advertising flag and nothing else |
| `GattServer.BleGattService.OnStartFailure` | app/src/main/java/com/visproj/parkingpermitsync/BleGattService.java:170-174 | a failed start clears the advertising flag and nothing else |
| `GattServer.BleGattService.OnDestroy` | app/src/main/java/com/visproj/parkingpermitsync/BleGattService.java:248-269 | teardown makes exactly the guarded calls and leaves the handles and the flag unchanged |
| `GattServer.BleGattService.OnCharacteristicReadRequest` | app/src/main/java/com/visproj/parkingpermitsync/BleGattService.java:195-224 | another characteristic gets GATT_FAILURE with offset 0 and a null value; the permit characteristic gets GATT_SUCCESS, the offset, and the chunk of the current payload at that offset; the repository is only read |
| `DisplaySync.CommandFor` | app/src/main/java/com/visproj/parkingpermitsync/DisplaySyncHelper.java:65 | the command is "FORCE" iff force is set, and "SYNC" otherwise |
| `DisplaySync.Initial` | app/src/main/java/com/visproj/parkingpermitsync/DisplaySyncHelper.java:53-61 | a new helper holds no scanner, connection or callback, is not scanning, has no command, and has posted nothing |
| `DisplaySync.AfterSyncDisplay` | app/src/main/java/com/visproj/parkingpermitsync/DisplaySyncHelper.java:63-110 | `syncDisplay` registers the callback and command; it starts a scan iff the adapter is there and on and a scanner exists, posts a timeout iff that scan is also permitted, and reports once, or twice for a refused scan |
| `DisplaySync.AfterStopScan` | app/src/main/java/com/visproj/parkingpermitsync/DisplaySyncHelper.java:112-121 | the flag stays up only without a scanner, and the platform stop is called iff scanning with a scanner |
| `DisplaySync.AfterTimeout` | app/src/main/java/com/visproj/parkingpermitsync/DisplaySyncHelper.java:97-104 | the fired timeout is consumed, the connection is untouched, and scanning stops when there is a scanner |
| `DisplaySync.AfterScanResult` | app/src/main/java/com/visproj/parkingpermitsync/DisplaySyncHelper.java:125-164 | a scan result ends with a connect call; the connection is open iff it was returned, or it was refused and one was already open; one report to a registered callback, two when refused |
| `DisplaySync.AfterScanFailed` | app/src/main/java/com/visproj/parkingpermitsync/DisplaySyncHelper.java:145-152 | the flag drops with no platform call, and "Scan failed" is reported to a registered callback |
| `DisplaySync.AfterCleanup` | app/src/main/java/com/visproj/parkingpermitsync/DisplaySyncHelper.java:244-253 | no connection is left; close is called iff one was open; nothing is reported |
| `DisplaySync.AfterLinkChange` | app/src/main/java/com/visproj/parkingpermitsync/DisplaySyncHelper.java:167-183 | other states change nothing; a disconnect leaves no connection; a connect requests service discovery |
| `DisplaySync.AfterServicesDiscovered` | app/src/main/java/com/visproj/parkingpermitsync/DisplaySyncHelper.java:185-242 | the command is written iff the characteristic was found; only a permitted write keeps the connection and reports nothing, every other case reports one error and closes |
| `DisplaySync.AfterCharacteristicWrite` | app/src/main/java/com/visproj/parkingpermitsync/DisplaySyncHelper.java:213-227 | success or "Command failed" is reported as the write ended, and no connection is left |
| `DisplaySync.AfterCancel` | app/src/main/java/com/visproj/parkingpermitsync/DisplaySyncHelper.java:255-258 | no connection is left, nothing is reported, and scanning stops when there is a scanner |
| `DisplaySync.UnavailableStartsNoScan` | app/src/main/java/com/visproj/parkingpermitsync/DisplaySyncHelper.java:63-76 | without an enabled adapter or a scanner, `syncDisplay` reports exactly "Bluetooth not available" or "BLE scanner not available" and starts no scan and no timeout |
| `DisplaySync.RefusedScanStaysScanning` | app/src/main/java/com/visproj/parkingpermitsync/DisplaySyncHelper.java:82-110 | a refused scan reports "Scanning for display..." then "Bluetooth permission denied", leaves the scanning flag raised and posts no timeout |
| `DisplaySync.StopScanIdempotent` | app/src/main/java/com/visproj/parkingpermitsync/DisplaySyncHelper.java:112-121 | `stopScan` is idempotent, calls the platform stop iff scanning with a scanner, and then leaves the flag down whenever there is a scanner |
| `DisplaySync.TimeoutReportsIffScanning` | app/src/main/java/com/visproj/parkingpermitsync/DisplaySyncHelper.java:97-104 | the timeout reports "Display not found" iff the scan is still running, and leaves the connection alone |
| `DisplaySync.TimeoutAfterResultIsSilent` | app/src/main/java/com/visproj/parkingpermitsync/DisplaySyncHelper.java:97-142 | after a scan result the later timeout reports nothing |
| `DisplaySync.DiscoveryProblemsReportAndClean` | app/src/main/java/com/visproj/parkingpermitsync/DisplaySyncHelper.java:185-242 | a failed discovery, a missing service or characteristic, or a refused write each report exactly one error and leave no connection |
| `DisplaySync.WriteCompletion` | app/src/main/java/com/visproj/parkingpermitsync/DisplaySyncHelper.java:213-227 | a write completion reports exactly once, success iff the write succeeded, closes the connection iff one is open, and leaves none |
| `DisplaySync.CleanupAndCancelIdempotent` | app/src/main/java/com/visproj/parkingpermitsync/DisplaySyncHelper.java:244-258 | `cleanup` and `cancel` are idempotent, and `cancel` leaves no connection |
| `DisplaySync.SuccessfulPush` | app/src/main/java/com/visproj/parkingpermitsync/DisplaySyncHelper.java:63-253 | a whole successful push reports the three status texts then success, makes the calls scan, stop, connect, discover, write the command, close, in that order, and its timeout is silent |
| `DisplaySync.DisplaySyncHelper.constructor` | app/src/main/java/com/visproj/parkingpermitsync/DisplaySyncHelper.java:53-61 | the fields start as in the initial state |
| `DisplaySync.DisplaySyncHelper.Deliver` | app/src/main/java/com/visproj/parkingpermitsync/DisplaySyncHelper.java:100-101 | a report reaches the callback only when one is registered |
| `DisplaySync.DisplaySyncHelper.SyncDisplay` | app/src/main/java/com/visproj/parkingpermitsync/DisplaySyncHelper.java:63-80 | the new fields are the `syncDisplay` transition of the old ones |
| `DisplaySync.DisplaySyncHelper.StartScan` | app/src/main/java/com/visproj/parkingpermitsync/DisplaySyncHelper.java:82-110 | the flag is raised before the platform call; the timeout is posted only when the scan is permitted, otherwise the denial is reported |
| `DisplaySync.DisplaySyncHelper.StopScan` | app/src/main/java/com/visproj/parkingpermitsync/DisplaySyncHelper.java:112-121 | the new fields are the `stopScan` transition |
| `DisplaySync.DisplaySyncHelper.OnScanTimeout` | app/src/main/java/com/visproj/parkingpermitsync/DisplaySyncHelper.java:97-104 | the new fields are the timeout transition |
| `DisplaySync.DisplaySyncHelper.OnScanResult` | app/src/main/java/com/visproj/parkingpermitsync/DisplaySyncHelper.java:125-164 | the new fields are the scan-result-and-connect transition |
| `DisplaySync.DisplaySyncHelper.OnScanFailed` | app/src/main/java/com/visproj/parkingpermitsync/DisplaySyncHelper.java:145-152 | the flag drops without a platform stop and "Scan failed" is reported |
| `DisplaySync.DisplaySyncHelper.OnConnectionStateChange` | app/src/main/java/com/visproj/parkingpermitsync/DisplaySyncHelper.java:167-183 | on connect, reports and discovers services; on disconnect, cleans up |
| `DisplaySync.DisplaySyncHelper.OnServicesDiscovered` | app/src/main/java/com/visproj/parkingpermitsync/DisplaySyncHelper.java:185-211 | the new fields are the discovery transition |
| `DisplaySync.DisplaySyncHelper.SendCommand` | app/src/main/java/com/visproj/parkingpermitsync/DisplaySyncHelper.java:230-242 | the pending command is written; a refused write reports and cleans up |
| `DisplaySync.DisplaySyncHelper.OnCharacteristicWrite` | app/src/main/java/com/visproj/parkingpermitsync/DisplaySyncHelper.java:213-227 | the new fields are the write-completion transition |
| `DisplaySync.DisplaySyncHelper.Cleanup` | app/src/main/java/com/visproj/parkingpermitsync/DisplaySyncHelper.java:244-253 | closes and forgets an open connection, and does nothing otherwise |
| `DisplaySync.DisplaySyncHelper.Cancel` | app/src/main/java/com/visproj/parkingpermitsync/DisplaySyncHelper.java:255-258 | stop the scan, then clean up |
| `StatusView.CurrentPermit` | app/src/main/java/com/visproj/parkingpermitsync/BleStatusFragment.java:331-336 | the current permit is the display permit when the display is out of sync and its permit is valid, else the fetched one; it is valid iff one of those two choices is |
| `StatusView.InSyncShowsRemote` | app/src/main/java/com/visproj/parkingpermitsync/BleStatusFragment.java:331-336 | in sync, or with no valid display permit, the fetched permit is current |
| `StatusView.Fallback` | app/src/main/java/com/visproj/parkingpermitsync/BleStatusFragment.java:476-477 | a text without ':' is kept as it is |
| `StatusView.FallbackCutsAtLastColon` | app/src/main/java/com/visproj/parkingpermitsync/BleStatusFragment.java:476-478 | the cleanup keeps the trimmed text before the last ':' |
| `StatusView.AltParse` | app/src/main/java/com/visproj/parkingpermitsync/BleStatusFragment.java:465-467 | the alternate parse reads the trimmed text as a day when it has no ':' |
| `StatusView.DateRange` | app/src/main/java/com/visproj/parkingpermitsync/BleStatusFragment.java:450-479 | the range throws iff either date is null, and otherwise is two parts joined by " - " |
| `StatusView.DateRangeTiers` | app/src/main/java/com/visproj/parkingpermitsync/BleStatusFragment.java:450-479 | the full format wins when both dates parse; otherwise the day format when both parse that way; otherwise each text cut at its last ':' and trimmed |
| `StatusView.ColonFreeFallback` | app/src/main/java/com/visproj/parkingpermitsync/BleStatusFragment.java:475-478 | in the last tier, texts without ':' are shown unchanged |
| `StatusView.BadgeFor` | app/src/main/java/com/visproj/parkingpermitsync/BleStatusFragment.java:481-510 | a null end date throws; an unparseable one gives "Current" |
| `StatusView.BadgeMeaning` | app/src/main/java/com/visproj/parkingpermitsync/BleStatusFragment.java:489-504 | "Expired" iff now is after the end; "Expiring Today" iff not expired and on the same calendar day; "Expiring" iff neither and less than two days are left; "Current" otherwise |
| `StatusView.ScheduledCard` | app/src/main/java/com/visproj/parkingpermitsync/BleStatusFragment.java:371-448 | the fetched card appears iff the fetched permit is valid, has a different number and has both dates, and it shows that permit with its formatted date range; with no display permit and nothing newer fetched the card is hidden; the card throws iff the newer fetched permit has a null date, or, with nothing newer and a display permit, the current end date is null |
| `StatusView.EstimateIff` | app/src/main/java/com/visproj/parkingpermitsync/BleStatusFragment.java:400-441 | with a display permit and nothing newer fetched, the estimate appears iff the end date is today or less than three days away; it starts a day after the end, lasts six days, keeps the plate, and shows "~" + price iff the price is non-empty |
| `StatusView.PermitPanelFor` | app/src/main/java/com/visproj/parkingpermitsync/BleStatusFragment.java:321-365 | the panel shows "No permit" iff the current permit is missing or invalid; for a valid one the refresh throws iff a current date is null or the second card throws; a shown panel carries the current permit's number, date range, badge and second card |
| `StatusView.VehicleLine` | app/src/main/java/com/visproj/parkingpermitsync/BleStatusFragment.java:346 | the vehicle line is "Hooptie (<plate>)", with "null" for a null plate |
| `StatusView.CompletePermitShows` | app/src/main/java/com/visproj/parkingpermitsync/BleStatusFragment.java:331-391 | a valid current permit with both dates is shown when a newer fetched permit also has both dates, and the second card never repeats its number |
| `StatusView.FetchedWithoutDatesThrows` | app/src/main/java/com/visproj/parkingpermitsync/BleStatusFragment.java:373-378 | a newer fetched permit with a null date makes the refresh throw, however complete the current permit is |
| `StatusView.NeverOutOfSyncLabel` | app/src/main/java/com/visproj/parkingpermitsync/BleStatusFragment.java:517-522 | no relative-time label is the text "Out of sync" |
| `StatusView.SyncTimeLabels` | app/src/main/java/com/visproj/parkingpermitsync/BleStatusFragment.java:512-526 | the fetch label is the relative time of the last sync, and the display label is "Out of sync" iff the display is out of sync |
| `StatusView.DisplayPermitToCommit` | app/src/main/java/com/visproj/parkingpermitsync/BleStatusFragment.java:90-94 | the cached permit is recorded as on the display iff it and its number are non-null |
| `StatusView.PushToast` | app/src/main/java/com/visproj/parkingpermitsync/BleStatusFragment.java:275-284 | the toast is "Display updated!" iff no permit was recorded |
| `TimeUtils.Classify` | app/src/main/java/com/visproj/parkingpermitsync/TimeUtils.java:5-30 | the reference bucket: "Never" iff the timestamp is 0; "Just now" iff under 5 s (or in the future); otherwise a count of whole units elapsed, within each unit's range |
| `TimeUtils.RelativeTime` | app/src/main/java/com/visproj/parkingpermitsync/TimeUtils.java:4-30 | the label is "Never" iff the timestamp is 0, and "Just now" for a non-zero timestamp less than 5 s ago or in the future |
| `TimeUtils.LabelForDiff` | app/src/main/java/com/visproj/parkingpermitsync/TimeUtils.java:10-29 | the label for a difference is "Just now" iff the difference is under 5 s, and is at least 8 characters long |
| `TimeUtils.BucketOf` | app/src/main/java/com/visproj/parkingpermitsync/TimeUtils.java:10-30 | the bucket of a time difference, with the same ranges |
| `TimeUtils.ChainedDivisions` | app/src/main/java/com/visproj/parkingpermitsync/TimeUtils.java:12-28 | the chained truncating divisions of a non-negative difference equal single divisions by 1 s, 1 min, 1 h, 1 day and 1 week |
| `TimeUtils.LabelOfChain` | app/src/main/java/com/visproj/parkingpermitsync/TimeUtils.java:10-30 | the label for a difference renders that difference's bucket |
| `TimeUtils.RelativeTimeMeaning` | app/src/main/java/com/visproj/parkingpermitsync/TimeUtils.java:4-30 | `getRelativeTime` always renders the reference bucket, singular exactly for a count of 1 |
| `TimeUtils.ParseRender` | app/src/main/java/com/visproj/parkingpermitsync/TimeUtils.java:17-29 | every label reads back as the bucket it renders |
| `TimeUtils.RenderInjective` | app/src/main/java/com/visproj/parkingpermitsync/TimeUtils.java:17-29 | two buckets never share a label |
| `TimeUtils.LabelIdentifiesBucket` | app/src/main/java/com/visproj/parkingpermitsync/TimeUtils.java:4-30 | the label of any timestamp names exactly one bucket |
| `Alarm.Next3AM` | app/src/main/java/com/visproj/parkingpermitsync/AlarmReceiver.java:67-80 | the trigger is a local 03:00:00.000, strictly after now and at most a day later |
| `Alarm.Next3AMIsFirst` | app/src/main/java/com/visproj/parkingpermitsync/AlarmReceiver.java:67-80 | no 03:00 lies strictly between now and the trigger |
| `Alarm.AtThreeNextIsTomorrow` | app/src/main/java/com/visproj/parkingpermitsync/AlarmReceiver.java:74-77 | an alarm that fires at 03:00 schedules the next one exactly a day later |
| `Alarm.ScheduleMode` | app/src/main/java/com/visproj/parkingpermitsync/AlarmReceiver.java:49-60 | the alarm is inexact iff Android 12 or later refuses exact alarms |
| `Alarm.OnReceive` | app/src/main/java/com/visproj/parkingpermitsync/AlarmReceiver.java:17-39 | a notification "Permit <number> for <plate>" is shown iff the sync succeeded with a new permit, and the next alarm is always set |

## Left out

- Logging, toasts (except the push toast's text), widget colours and visibility, notification channels and the foreground notification are not modelled.
- Threading is not modelled. The executor runs `sync` off the main thread, and the handler posts callbacks back to it. The model runs each step to completion and records a posted report when it is posted.
- The fragment's 2 s and 3 s delays and its 10 s refresh loop are not modelled.
- The `ACTION_*` broadcasts and `isServiceRunning` are not modelled: `BleGattService` never defines or sends them.
- The display permit, the out-of-sync flag and the last display-sync time are inputs. The repository methods that would supply them (`getDisplayPermit`, `setDisplayPermit`, `isDisplayOutOfSync`, `getLastDisplaySyncTime`) are not in `PermitRepository`.
- Gson, OkHttp, `SharedPreferences` persistence, `SimpleDateFormat` and the Bluetooth stack are parameters, not implementations.
- The JSON codec is only constrained where a lemma requires the round-trip law (`GsonLike`).
- Time zones, daylight saving and month lengths are not modelled. A day is 86,400,000 ms, and local time is UTC plus a fixed offset.
- Alarm.Next3AM: reads the clock once. The source reads it twice, `Calendar.getInstance()` and then `System.currentTimeMillis()`, which could straddle 03:00.
- Java `long` overflow is not modelled: integers are unbounded. Timestamps near the limits of `long` do not occur.
- Every `SecurityException` that is only logged has no effect in the model. That includes the ones from `sendResponse`, `stopAdvertising`, `close` and `stopScan`. The call is still recorded as attempted.
- GattServer.BleGattService.OnCharacteristicReadRequest: the offset is a natural number. BLE offsets are unsigned; a negative Java `int` offset would make `arraycopy` throw.
- GattServer.ArrayCopy: covers distinct arrays only. The one call copies into a freshly allocated buffer.
- The UUIDs are compared as strings. Device names and the GATT server's connection-state logging are left out.
- DisplaySync.DisplaySyncHelper.OnServicesDiscovered: requires a registered callback, so by the helper's invariant a command is pending. Discovery only happens on a connection that `syncDisplay` started, after it set both. The `NullPointerException` that a null command would raise in `sendCommand` is not modelled.
- `MainActivity`, `BootReceiver`, `SamsungBatteryHelper`, `WebViewFragment` and `MainPagerAdapter` are not part of this model. They are platform plumbing and UI hosting.
