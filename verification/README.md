# Hotel Surya front desk — a Dafny model

Hotel Surya is a desktop and browser app for a small hotel. Its web front end
keeps one state object: the floors and their rooms, the reservations, the
check-ins, the checkouts, the rent payments and the expenses. Several places
can hold that state: a chosen folder on disk, the browser's storage, and a sync
server. The owner's pages (Dashboard, Check-in, Check-out, Reservations, the
lists, Accounts, Analysis) edit the state. The live pages (Live Updates, the
public live page, the LiveUpdate summary, the mobile view, the remote view)
show it read-only, from the folder's files or from a shared address.

This project models that logic in Dafny, one module per source file:

- `AppRooms`, `AppReservations`, `AppAccounts`, `AppLists`, `AppCheckout` and
  `AppAnalysis` model `src/App.jsx`: the default state, the Dashboard counts
  and the reserved-room overlay, room editing, check-in, reservations,
  checkout with its rent and bill, the searchable lists, rent payments,
  expenses and the Analysis totals.
- `StateSource`, `DualSync`, `DiskSync` and `Upload` model the services that
  choose the authoritative state, merge room rates, keep the outbox, write the
  month folders and build download links.
- `LiveUpdates`, `LiveSummary`, `PublicLive`, `LiveUpdate`, `MobileView` and
  `RemoteView` model the live pages. `CheckoutPage`, `ExpensesPage`,
  `RentPaymentPage` and `ReservationsPage` model the LiveUpdate sub-pages.
- `SeedDefault` models the server's seed state. `ServiceWorker` models the
  offline cache in `public/sw.js`.
- `Text`, `Json`, `Hotel`, `Sorting`, `ListView`, `Folders`, `DateText` and
  `DateUtils` hold what those files share. That is text helpers and `Number()`,
  a JSON value type, rooms and floors, a stable sort, filtering with
  pagination, the month-folder layout, and date texts.

The model does not read the clock, parse dates, read files or use the network.
Today's date, the current ISO time, elapsed milliseconds, the result of
`new Date(...)` parsing, file contents already read and parsed, and server
answers are all parameters. Code that changes state step by step is written as
methods with loop invariants, proved against the functions that specify them.
Objects whose fields change are classes: the storage slots, the outbox, the
cache storage and the live pages' stores.

A few behaviours of the source are stated as lemmas rather than corrected,
because they read as deliberate or harmless:

- `AppRooms.GenerateDefault` marks room 203 occupied. The server's seed marks
  202 instead.
- The Dashboard counts a room stored as "reserved" as free when no
  reservation holds it today. The room layout still draws it reserved.
- The comment above `saveAll` (`src/services/dualSync.js:22`) says a failed save
  is stored in the outbox. `saveAll` never writes the outbox; only `writeOutbox`
  does.
- In the remote view, a reservation date that carries a time after the day is
  listed among today's reservations, but its room is not painted reserved
  (`RemoteView.LongDateListedNotReserved`).
- `downloadUrlForId` strips one trailing `/api` only.

## Model

| member | source | states |
|---|---|---|
| Upload.StripApi | src/services/upload.js:16 | a base ending in `/api` loses exactly that suffix; any other base is kept |
| Upload.DownloadUrlForId | src/services/upload.js:14-17 | the link always ends in `/api/download/<id>`; an unset base gives `/api/download/<id>`; a base without `/api` is kept in front; a base ending in `/api` is followed by `/download/<id>` only |
| Upload.ApiSuffixNotDoubled | src/services/upload.js:16 | a server root and the same root with `/api` appended give the same link, `root/api/download/<id>` |
| SeedDefault.GenerateSeed | server/seedDefault.mjs:14-48 | five floors of four rooms numbered `f*100+r` at rate 2500; room 102 reserved for A. Kumar today, 202 and 301 occupied by Ravi and Priya, every other room free and empty; the two reservations for 101 and 103 today; every other list empty |
| SeedDefault.SeedOccupied | server/seedDefault.mjs:25-33 | in the seed a room is occupied exactly when it is 202 or 301, and reserved exactly when it is 102 |
| ServiceWorker.RouteOf | public/sw.js:45-65 | non-GET requests are not intercepted; a shell path or anything under `/assets/` is shell; otherwise a same-origin path with a data folder segment or ending in `.json` is data; anything else is passed through |
| ServiceWorker.ShellBeforeData | public/sw.js:52 | a `.json` file under `/assets/` is served as shell although it also passes the data test |
| ServiceWorker.FolderFilesAreData | public/sw.js:31-35 | a same-origin file in any of the five data folders is a data request |
| ServiceWorker.CacheStorage.constructor | public/sw.js:2-3 | the worker starts from the caches the browser already holds, unchanged |
| ServiceWorker.CacheStorage.Activate | public/sw.js:21-28 | exactly the caches not named `app-shell-v1` or `hotel-data-v1` are deleted; entries are untouched |
| ServiceWorker.CacheStorage.ShellFetch | public/sw.js:53-60 | the shell cache exists afterwards; a stored answer is returned without asking the network; otherwise the network answer is returned and stored only when ok; the data cache is untouched |
| ServiceWorker.CacheStorage.DataFetch | public/sw.js:66-85 | the data cache exists afterwards; the stored answer is returned when there is one, else the network's; the network is always asked and an ok answer replaces the stored one and is announced; the shell cache is untouched |
| StateSource.GenerateDefault | src/services/stateSource.js:7-9 | the default is `undefined` |
| StateSource.LoadStateFromLocal | src/services/stateSource.js:11-15 | a missing or empty entry or text that does not parse gives nothing; otherwise the parsed value |
| StateSource.NormalizeServerState | src/services/stateSource.js:48-64 | a falsy server state gives `undefined`; otherwise exactly the six members, each the server's value when truthy, `{}` for floors and `[]` for the lists otherwise |
| StateSource.NormalizedMembersPresent | src/services/stateSource.js:55-62 | every member of a normalised state is truthy |
| StateSource.NormalizedLookup | src/services/stateSource.js:55-62 | looking up a member of a normalised state finds the value it was built from |
| StateSource.NormalizeIdempotent | src/services/stateSource.js:48-64 | normalising a normalised state changes nothing |
| StateSource.AuthoritativeState | src/services/stateSource.js:17-46 | the folder's state when a folder is set and reading it gives one; else a truthy saved copy; else the normalised server state on an ok answer; else `undefined` |
| StateSource.PriorityOrder | src/services/stateSource.js:17-46 | a saved copy is never used while the folder gives a state, the server only when neither does, and with no source the result is `undefined` |
| DateUtils.MonthFolder | src/utils/dateUtils.js:2-6 | the month's three-letter name from `Jan` to `Dec` |
| DateUtils.MonthFolderInjective | src/utils/dateUtils.js:2-6 | different months get different folder names |
| DateUtils.Pad2Digits | src/utils/dateUtils.js:19-20 | padding a number below 100 gives two digits that read back as the number |
| DateUtils.Ymd | src/utils/dateUtils.js:25-30 | `YYYY-MM-DD` with four- and two-digit fields that read back as the date's year, month and day |
| DateUtils.DisplayDate | src/utils/dateUtils.js:18-23 | `DD-MM-YYYY` with fields that read back as the date's day, month and year |
| DateUtils.FieldsReversed | src/utils/dateUtils.js:18-30 | `displayDate` and `ymd` of one date carry the same three fields in opposite order |
| DateUtils.YmdOrderIsCalendarOrder | src/utils/dateUtils.js:25-30 | comparing two `ymd` texts as strings orders them as their calendar dates |
| DualSync.FindByNumber | src/services/dualSync.js:47 | the first room with that number, and none when no room has it |
| DualSync.LocalMatch | src/services/dualSync.js:47 | the room with the same number on the local floor with the same key, when there is one |
| DualSync.MergeRoom | src/services/dualSync.js:48 | with a match, the remote room with the local rate when that is set; without one the remote room unchanged |
| DualSync.MergeRates | src/services/dualSync.js:44-51 | the same floors and rooms in the same order, with only the rates changed as MergeRoom says |
| DualSync.MergeRatesIdempotent | src/services/dualSync.js:44-51 | merging again with the same local state changes nothing |
| DualSync.MergeKeepsRemoteWithoutLocalRate | src/services/dualSync.js:47-48 | a room whose match has no rate keeps the remote rate, and a room without a match is kept exactly |
| DualSync.TryLoadRemoteAndMerge | src/services/dualSync.js:39-57 | `null` without a remote state; otherwise the remote state, with rates merged only when both sides have floors |
| DualSync.SyncService.constructor | src/services/dualSync.js:11-84 | the outbox is the stored one and the flush loop is running |
| DualSync.SyncService.WriteOutbox | src/services/dualSync.js:17-19 | the outbox holds exactly the given state |
| DualSync.SyncService.ClearOutbox | src/services/dualSync.js:20 | the outbox is empty |
| DualSync.SyncService.SaveAll | src/services/dualSync.js:23-36 | without a server nothing is sent and the outbox is kept; a successful save empties it; a failed one keeps it |
| DualSync.SyncService.FlushOnce | src/services/dualSync.js:65-76 | an empty outbox or one without a truthy `state` sends nothing; otherwise its state is sent and the outbox is emptied only on success |
| DualSync.SyncService.StartFlushLoop | src/services/dualSync.js:78-81 | the loop runs afterwards and a second start installs no second timer |
| Text.Trim | src/App.jsx:1648-1649 | the result neither starts nor ends with whitespace and is no longer than the input; a text without surrounding whitespace is kept |
| Text.TrimIsInfix | src/App.jsx:1648-1649 | `trim` keeps an infix of the text: everything it drops before and after that infix is whitespace |
| Text.TrimIdempotent | src/App.jsx:1648-1649 | trimming twice is trimming once |
| Text.Lower | src/App.jsx:1649-1653 | the same length, with every character lower-cased in place |
| Text.LowerIdempotent | src/App.jsx:1649-1653 | lower-casing twice is lower-casing once |
| Text.ContainsInJoin | src/App.jsx:1649-1653 | a needle found in the lower-cased form of one part is found in the lower-cased joined text |
| Text.SliceTo | src/components/RemoteView.jsx:103 | `s.slice(0, n)` is a prefix of `s` of length `n`, or all of `s` when it is shorter |
| Text.Split | src/App.jsx:2466 | a split has at least one piece and no piece holds the separator |
| Text.SplitJoin | src/App.jsx:2466 | splitting parts joined by a separator that occurs in none of them gives the parts back |
| Text.JoinSplit | src/App.jsx:2466 | joining the pieces of a split with the separator restores the text |
| Text.NatToString | src/LiveUpdate.jsx:489 | `String(n)` is a non-empty run of digits with no leading zero |
| Text.DigitsValueOfNatToString | src/LiveUpdate.jsx:489 | the digits of `String(n)` read back as `n` |
| Text.NumberOf | src/App.jsx:692 | `Number(s)` of blank text is 0 and of a run of digits (after trimming) is its value |
| Text.NumberOfCases | src/App.jsx:692 | a numeral signed with `-` or `+` reads as its digits with that sign; `Number` gives NaN exactly when the trimmed text is neither blank, digits, nor a signed numeral |
| Text.NumberOfIntToString | src/services/diskSync.js:36-38 | `Number(String(i))` is `i` for every integer |
| Text.OrZero | src/App.jsx:1083 | `Number(x) \|\| 0` is the number, and 0 for NaN |
| Text.LexTrichotomy | src/components/LiveUpdates.jsx:291 | of two texts one is before the other or they are equal |
| Text.LexLessTransitive | src/components/LiveUpdates.jsx:291 | text order is transitive |
| Text.LexLeTotal | src/components/LiveUpdates.jsx:291 | any two texts are comparable |
| Text.SafeName | src/App.jsx:1118 | `replace(/[^\w\-]+/g, "_")` gives only letters, digits, `_` and `-`, and never lengthens the text |
| Text.SafeNameReplacesRun | src/App.jsx:1118 | each run of characters outside `[\w\-]` between safe text becomes exactly one `_`, with the text on either side made safe as it stands |
| Text.SafeNameKeepsSafe | src/App.jsx:1118 | a text made only of safe characters is kept as it is |
| Text.SafeNameIdempotent | src/App.jsx:1118 | making a name safe twice changes nothing more |
| Json.Lookup | src/components/RemoteView.jsx:40 | a member is found exactly when some binding has that key, and the value found is bound to it |
| Json.Or | src/services/stateSource.js:57-61 | `a \|\| b` is `a` when it is present and truthy and `b` otherwise |
| Json.PutGet | src/components/RemoteView.jsx:20 | after `obj[key] = value` the key reads `value` and every other key reads as before |
| Json.ListText | src/components/LiveUpdates.jsx:410 | an array is shown as its items joined by `, `; any other value as its text or empty |
| Json.ItemNumbers | src/services/diskSync.js:36 | `items.map(Number)`: one number per item, in order |
| Json.TextOr | src/App.jsx:1651 | `String(obj[key])` when that member is truthy, and the fallback when it is missing or falsy |
| Json.Unwrap | src/components/LiveUpdates.jsx:65 | a truthy payload with a truthy `state` member unwraps to that member; any other payload is kept as it is |
| Json.UnwrapEnvelope | src/components/LiveUpdates.jsx:65 | an envelope around a truthy state unwraps to that state; an object without a `state` member is kept |
| Hotel.MapRooms | src/services/diskSync.js:41-57 | the same floors and rooms, each room replaced by its image |
| Hotel.SetRoom | src/App.jsx:56-57 | only the room at the given place changes, to the given room |
| Hotel.FloorIndex | src/services/diskSync.js:38-40 | the position of the floor with the given key, and none when no floor has it |
| Hotel.Grid | src/services/diskSync.js:3-13 | the fresh five-by-four grid of free rooms numbered `f*100+r` |
| Hotel.EmptyGridUnique | src/services/diskSync.js:3-13 | there is only one fresh grid for a rate |
| Hotel.EmptyFloors | src/services/diskSync.js:3-13 | the nested loops build the fresh grid |
| Hotel.GridNumbersDistinct | src/services/diskSync.js:8 | a grid room's number divided by 100 is its floor and the remainder its place, so numbers are distinct |
| Hotel.GridFloorDigit | src/services/diskSync.js:38 | the first character of a grid room's number names its floor |
| Sorting.Insert | src/LiveUpdate.jsx:70 | inserting into a sorted list keeps it sorted and adds exactly the one element |
| Sorting.Sort | src/LiveUpdate.jsx:70 | the result is sorted and a permutation of the input |
| Sorting.AscendingUnique | src/LiveUpdate.jsx:164 | two ascending integer lists with the same elements are equal |
| Sorting.AscendingMin | src/LiveUpdate.jsx:170 | the first element of an ascending list is its least |
| ListView.IsSubsequenceTransitive | src/App.jsx:1644-1655 | a subsequence of a subsequence is a subsequence, so chained filters keep rows in their order |
| ListView.Filter | src/App.jsx:1645 | exactly the elements that pass, as a subsequence of the input in its order |
| ListView.FilterIf | src/App.jsx:1645-1647 | a filter step applied only when its input is set keeps every element when unset, and exactly those passing when set, in order |
| ListView.FilterAll | src/App.jsx:1645 | a filter every element passes keeps the list as it is |
| ListView.FilterAppend | src/App.jsx:1645 | filtering a concatenation filters each part |
| ListView.FilterSplitCount | src/liveupdate/RentPaymentPage.jsx:74 | two filters that split what a third keeps keep as many rows together, each row kept by exactly one of them |
| ListView.SumAppend | src/App.jsx:1658 | the total of a concatenation is the sum of the totals |
| ListView.SumNonNegative | src/App.jsx:1658 | the total of non-negative amounts is non-negative |
| ListView.SumFilterPartition | src/App.jsx:1658 | the total of the kept rows plus the total of the dropped rows is the total of all rows |
| ListView.TotalPages | src/App.jsx:1659 | at least one page; one for an empty list; otherwise the least count of pages that holds every row |
| ListView.SliceIndex | src/App.jsx:1661 | `slice` moves a non-negative index to itself, or to the length when it is beyond the end, and a negative one to that many places before the end, or to 0 |
| ListView.JsSlice | src/App.jsx:1661 | `xs.slice(start, end)`: the elements between the two moved indices, none when the end does not pass the start (a start at or past the end of `xs` gives nothing), and for a negative start up to the end the last `-start` elements |
| ListView.PageRows | src/App.jsx:1661 | a page has at most `size` rows, all from the list, and a page past the last is empty |
| ListView.PastLastPage | src/App.jsx:1659-1661 | a page after the last starts at or beyond the end of the list |
| ListView.RowOnItsPage | src/App.jsx:1659-1661 | row `i` is on page `i / size + 1`, at place `i % size`, and that page is within the page count |
| ListView.View | src/App.jsx:1658-1661 | the total is the sum of all filtered amounts; a reachable page is the slice from `(page-1)*size` of at most `size` rows; a page past the last is empty; the page count is TotalPages |
| ListView.PageSlice | src/App.jsx:1661 | a reachable page starts inside the list and is its slice from that start |
| ListView.PageStart | src/App.jsx:1659-1661 | a reachable page starts inside the list and ends `size` rows later |
| ListView.EveryRowShown | src/App.jsx:1659-1661 | every filtered row is shown on a page the pager reaches, at the place its position gives |
| ListView.SubsequenceSumNoLarger | src/App.jsx:1658 | over non-negative amounts, filtering never raises the total |
| ListView.Reverse | src/liveupdate/ReservationsPage.jsx:5 | `slice().reverse()` has the same length with element `i` taken from the other end |
| ListView.ReverseReverse | src/liveupdate/ReservationsPage.jsx:5 | reversing twice gives the list back |
| ListView.ReverseSameElements | src/liveupdate/ReservationsPage.jsx:5 | reversing keeps exactly the same elements |
| ListView.LastReversed | src/components/RemoteView.jsx:100 | `slice(-k).reverse()` holds the last `k` elements (all of a shorter list), newest first |
| ListView.Take | src/components/LiveUpdates.jsx:383 | `slice(0, n)` is the prefix of length `n`, or all of a shorter list |
| ListView.PagesCover | src/App.jsx:1659 | the page count holds every row, with no page to spare: `(pages - 1) * size <= n <= pages * size` |
| Folders.FileVisits | src/App.jsx:1627-1632 | the JSON files of one directory, each tagged with that directory, at most one per file |
| Folders.Visits | src/App.jsx:1625-1633 | every visited file is a JSON file of a directory the walk enters |
| Folders.VisitsExactly | src/App.jsx:1625-1633 | a file is visited exactly when it is a JSON file of a directory that passes the folder filter |
| Folders.VisitsSound | src/App.jsx:1625-1633 | every visited file is a JSON file of an entered directory |
| Folders.VisitsComplete | src/App.jsx:1625-1633 | every JSON file of an entered directory is visited |
| Folders.FileVisitsExactly | src/App.jsx:1627-1632 | a file of one directory is visited exactly when its name ends in `.json` |
| Folders.FileVisitsAppend | src/App.jsx:1627-1632 | walking two runs of files visits the first run's files, then the second's |
| Folders.VisitsAppend | src/App.jsx:1625-1633 | walking two runs of directories visits the first run's files, then the second's |
| Folders.VisitsPrefix | src/App.jsx:1625-1633 | the walk over the first `i` directories is a prefix of the whole walk, so rows are pushed in walk order |
| Folders.FileVisitsPrefix | src/App.jsx:1627-1632 | the walk over the first `j` files is a prefix of the walk over all of them |
| DateText.SplitThree | src/App.jsx:2466 | three fields joined by a separator none of them holds split back into those fields |
| DateText.DayFirstToYmd | src/App.jsx:2466-2467 | a day-first date's fields give a full `YYYY-MM-DD` date with the year first and month and day padded |
| DateText.NormalizeFolderDate | src/App.jsx:2461-2470 | a full date is kept; a `D-M-YYYY` name becomes a full date; any other name has none; a result is always a full date |
| DateText.NormalizeIdempotent | src/App.jsx:2461-2470 | normalising a normalised name changes nothing |
| DateText.DisplayToYmd | src/LiveUpdate.jsx:149-156 | a full date is kept; `DD/MM/YYYY` becomes a full date; any other text has none |
| DateText.DigitsOrder | src/App.jsx:1645-1646 | digit strings of one length compare as text exactly as their values compare |
| DateText.YmdIsNotSlashDmy | src/LiveUpdate.jsx:151-152 | no text is both a full date and a `DD/MM/YYYY` date |
| DateText.TextOrderThree | src/App.jsx:1645-1646 | text order on three dash-separated fields of matching lengths is field-by-field order |
| DateText.DateNumberOrder | src/App.jsx:1645-1646 | comparing year, month and day field by field is comparing YYYYMMDD numbers |
| DateText.YmdTextOrderIsDateOrder | src/App.jsx:1645-1646 | two full dates compare as text exactly as their calendar values compare |
| DateText.BoundsAreCalendar | src/App.jsx:1645-1646 | between full dates, the `from`/`to` text test is the calendar range test |
| AppRooms.GenerateDefault | src/App.jsx:45-58 | five floors keyed 1..5 of four rooms numbered `f*100+r`, no rate; 102 reserved for A. Kumar from 2025-08-15; 203 and 301 occupied by Ravi and Priya; every other room free and empty |
| AppRooms.DashboardStatus | src/App.jsx:125-135 | a room counts as occupied exactly when stored occupied, as reserved exactly when not occupied and a reservation holds its number today, and as free otherwise |
| AppRooms.CountsPartition | src/App.jsx:121-137 | the free, reserved and occupied counts add up to the number of rooms |
| AppRooms.OccupiedCountIgnoresReservations | src/App.jsx:130-131 | the occupied count is the same whatever the reservations are |
| AppRooms.CountFloor | src/App.jsx:123-136 | the inner loop adds one floor's rooms to the counts: each count is the count over the rooms so far |
| AppRooms.DashboardCounts | src/App.jsx:119-137 | `total` is the number of rooms and each of `free`, `reserved`, `occupied` the number of rooms the Dashboard counts under it; they add up to `total` |
| AppRooms.OverlayRoom | src/App.jsx:166-172 | only a free room changes, and only to reserved; the room is drawn reserved exactly when stored reserved or free with a reservation today |
| AppRooms.LayoutOverlay | src/App.jsx:164-173 | the same floors and rooms, each room equal to OverlayRoom of the stored one: drawn reserved exactly when stored reserved or free with a reservation today, otherwise unchanged |
| AppRooms.LayoutAgreesWithCounts | src/App.jsx:125-172 | the layout colour and the count agree for every room except one stored reserved with no reservation today |
| AppRooms.LayoutAgreesWithDashboard | src/App.jsx:125-172 | on the Dashboard layout every room is drawn with the status it is counted under, except one stored reserved with no reservation today |
| AppRooms.FirstBooking | src/App.jsx:338-339 | a booking is found exactly when one holds the room on the date, and it is one of those |
| AppRooms.FloorViewRoom | src/App.jsx:337-344 | number, rate and guest are kept; the status is the Dashboard layout's; a changed room shows a reservation of today for it; an unchanged room is kept exactly |
| AppRooms.FloorView | src/App.jsx:337-344 | the floor's rooms drawn one by one, and none when the floors have no such key |
| AppRooms.UpdateRoom | src/App.jsx:350-356 | the rooms of that floor with that number are patched and nothing else changes; none when there is no such floor |
| AppRooms.UpdateRoomIdempotent | src/App.jsx:350-356 | patching the same room twice with one patch is patching it once |
| AppRooms.CheckInReservedPatch | src/App.jsx:387-397 | the room becomes occupied and no longer held, by a named guest checked in now: the person it was held for when named, else `Guest` |
| AppRooms.CheckInSubmit | src/App.jsx:674-705 | no room chosen changes nothing; otherwise every room numbered `Number(form.room)` becomes occupied by the form's guest, other rooms are kept, and exactly the bookings of that room for today are dropped, the rest kept in order |
| AppRooms.CheckInOccupies | src/App.jsx:674-705 | after checking a guest into a room it counts as occupied and no booking holds it for today |
| AppRooms.SavedCheckinOccupies | src/App.jsx:707-713 | the check-in record saved to the folder (room as typed, rate `Number(rate)` or 0) is read back by the disk loader with that room occupied |
| AppReservations.Available | src/App.jsx:1415-1425 | at most one number per room, in room order |
| AppReservations.AvailableExactly | src/App.jsx:1415-1425 | a number is offered exactly when some room with it is not occupied and no reservation holds it on the date |
| AppReservations.UpdateAvailableRooms | src/App.jsx:1406-1429 | no date gives an empty list; otherwise the numbers of the free-to-book rooms of every floor, in floor order |
| AppReservations.NewReservation | src/App.jsx:1438-1443 | the form's name, place and date, and `Number(form.room)` as the room |
| AppReservations.RemoveAt | src/App.jsx:1471 | `splice(i, 1)`: one shorter, the same elements less entry `i`, earlier entries in place and later ones moved up by one |
| AppReservations.ReservedOnAppend | src/App.jsx:1446-1447 | after appending a booking a room is held on a date exactly when it was before or the new booking holds it then |
| AppReservations.AddedRoomUnavailable | src/App.jsx:1415-1447 | once a booking for room `n` on a date is added, `n` is no longer offered on that date |
| AppReservations.OtherDatesUnaffected | src/App.jsx:1415-1447 | a booking on one date does not change what is offered on any other date |
| AppReservations.ReservationBook.constructor | src/App.jsx:1399 | the book holds the given reservations |
| AppReservations.ReservationBook.Add | src/App.jsx:1431-1457 | an incomplete form is refused and nothing changes; otherwise the new booking is appended |
| AppReservations.ReservationBook.Delete | src/App.jsx:1461-1477 | a missing entry or an unconfirmed deletion changes nothing; otherwise exactly entry `i` is removed |
| AppAccounts.OccupiedList | src/App.jsx:2126-2133 | at most one entry per room |
| AppAccounts.OccupiedListExactly | src/App.jsx:2126-2133 | an entry is listed exactly when some occupied room with a guest gives it |
| AppAccounts.OccupiedRooms | src/App.jsx:2126-2133 | the loops build exactly the occupied-with-guest entries in floor order |
| AppAccounts.FindRoom | src/App.jsx:2136 | the first listed room whose number written out is the picked text, and none when no listed room matches |
| AppAccounts.RoomChange | src/App.jsx:2135-2142 | the room becomes the picked one and other fields are kept; the name is the guest of the first listed room with that number, or empty |
| AppAccounts.PickedRoomNamesItsGuest | src/App.jsx:2126-2142 | picking an occupied room with a guest fills in that guest's name |
| AppAccounts.IntToStringInjective | src/App.jsx:2136 | different room numbers have different texts, so `String(r.number) === roomNo` picks one number |
| AppAccounts.SubmitRent | src/App.jsx:2146-2182 | an incomplete form is refused; without storage nothing is written; otherwise one `rent-…json` file with the form and the time goes into `RentCollections/<today>` |
| AppAccounts.RentRecordFields | src/App.jsx:2166-2171 | the saved record's amount and mode are the form's texts |
| AppAccounts.SavedRentIsListed | src/App.jsx:1631-1658 | a saved rent row counts `Number(amount) \|\| 0` in the Rent Payments total and passes that page's filters for its day and mode |
| AppAccounts.SubmitExpense | src/App.jsx:2185-2228 | both fields required, the amount a number above zero, storage connected; then one `expense-…json` file with the description, the amount and the time goes into `Expenses/<today>` |
| AppAccounts.SavedExpenseCounts | src/App.jsx:2193-2196 | a saved expense adds a positive amount to the Expenses total |
| AppLists.RentFiltered | src/App.jsx:1643-1656 | exactly the rows that pass the date, mode and search filters, in their order |
| AppLists.ClearedRentFilters | src/App.jsx:1664 | after clearing the filters every row is shown |
| AppLists.RentPage | src/App.jsx:1658-1661 | the total of the filtered rows, `max(1, ceil(n/20))` pages, and on page p within range exactly the filtered rows from (p-1)*20 up to twenty of them; past the last page no rows; every row a loaded row passing the filters |
| AppLists.ExpenseFiltered | src/App.jsx:1944-1957 | exactly the rows that pass the date and search filters, in their order |
| AppLists.ExpensePage | src/App.jsx:1958-1961 | the total of the filtered rows, `max(1, ceil(n/20))` pages, and on page p within range exactly the filtered rows from (p-1)*20 up to twenty of them; past the last page no rows; every row a loaded row passing the filters |
| AppLists.NarrowerTotalNoLarger | src/App.jsx:1658 | over non-negative amounts, the filtered total is at most the total of all rows |
| AppCheckout.PaymentOf | src/App.jsx:1074-1084 | a file adds nothing to the walk exactly when reading it throws; a non-zero payment comes only from a file of the same room and guest name |
| AppCheckout.AbortedWalkIsFinal | src/App.jsx:1067-1089 | once reading a file has thrown, later files change nothing |
| AppCheckout.WalkWithoutThrowIsMatchedSum | src/App.jsx:1067-1089 | with no file that throws, the total is exactly the sum of the guest's payments |
| AppCheckout.WalkStopsAtFirstThrow | src/App.jsx:1067-1089 | a throw keeps exactly the guest's payments found before the first file that throws |
| AppCheckout.WalkStep | src/App.jsx:1075-1085 | reading one more file adds its payment, or ends the walk with the total so far |
| AppCheckout.ThrowEndsDirectory | src/App.jsx:1074-1086 | a throw at one file of a directory leaves the rest of its files unread |
| AppCheckout.ReadRentFile | src/App.jsx:1075-1085 | one turn of the inner loop: a `.json` file's payment is added or its throw ends the walk; any other file is passed over |
| AppCheckout.SumRentFiles | src/App.jsx:1074-1086 | the inner loop over one directory continues the walk: its result is the walk over the files so far and that directory's `.json` files |
| AppCheckout.GetTotalPayments | src/App.jsx:1066-1091 | the total is the walk's total over the `.json` files of the date directories between check-in and check-out, stopping at the first file that throws |
| AppCheckout.CeilDiv | src/App.jsx:1108 | `Math.ceil(a / d)`: the least whole count of `d` that covers `a` |
| AppCheckout.Billing | src/App.jsx:1108-1115 | at least one day, and exactly the days that cover the stay; rent is days times the rate; the paid total is recorded; `tallied` exactly when paid reaches the rent; NaN days and rent when the check-in time does not parse |
| AppCheckout.BillingAtLeastOneDay | src/App.jsx:1108-1115 | any stay is billed at least one day's rate, and paying that rent or more for one day tallies |
| AppCheckout.CheckedOut | src/App.jsx:1129-1148 | every room with that number becomes free with no guest; every other room is kept |
| AppCheckout.CheckedOutIdempotent | src/App.jsx:1129-1148 | checking a room out twice is checking it out once |
| AppCheckout.CheckedOutNotOccupied | src/App.jsx:1129-1148 | after check-out the room is stored free with no guest under its own number, so the Dashboard never counts it occupied (free, or reserved when a booking holds it that day) |
| AppCheckout.DoCheckout | src/App.jsx:1125-1158 | when moving any of the room's check-ins throws nothing changes; otherwise the floors are CheckedOut |
| AppAnalysis.DisplayFolderNormalizes | src/App.jsx:2461-2470 | a folder named by `displayDate` of a day is normalised to the `ymd` of the same day |
| AppAnalysis.InRangeBounds | src/App.jsx:2532-2536 | empty bounds let every name through, and each non-empty bound is itself in range when the bounds are ordered |
| AppAnalysis.InRangeIsDateRange | src/App.jsx:2532-2536 | on full-date folder names the text range test is the calendar range test |
| AppAnalysis.Dirs | src/App.jsx:2554-2555 | a folder name is collected exactly when some visited file is in it |
| AppAnalysis.DaySumOutside | src/App.jsx:2554-2555 | a day no file was found in has nothing summed for it |
| AppAnalysis.RoomSumOutside | src/App.jsx:2557-2558 | a room key no file gave has nothing summed for it |
| AppAnalysis.AddMode | src/App.jsx:2550-2552 | no mode is added or dropped: the tally keeps the modes it started with |
| AppAnalysis.AddIncome | src/App.jsx:2554-2555 | the day gets an entry if it had none, and no other day is added |
| AppAnalysis.AddExpense | src/App.jsx:2574-2575 | the day gets an entry if it had none, and no other day is added |
| AppAnalysis.AddRoom | src/App.jsx:2557-2558 | an empty room key adds no entry; any other key gets one |
| AppAnalysis.ModeTotalsStep | src/App.jsx:2550-2552 | one more file keeps each mode's tally the sum of that mode's amounts so far |
| AppAnalysis.IncomeDaysStep | src/App.jsx:2554-2555 | one more file keeps each day's income the sum of that day's amounts so far |
| AppAnalysis.RoomTotalsStep | src/App.jsx:2557-2558 | one more file keeps each room's total the sum of that room's amounts so far |
| AppAnalysis.RentStep | src/App.jsx:2543-2559 | one more rent file keeps every rent-loop total the sum over the files so far |
| AppAnalysis.RentLoop | src/App.jsx:2538-2560 | without an unreadable file: income is the sum of all amounts, each mode's tally its sum, each day's income its sum over exactly the visited days, each non-empty room key's total its sum; an unreadable file ends the load |
| AppAnalysis.ExpenseStep | src/App.jsx:2567-2576 | one more expense file keeps the expense total and each day's expense the sums so far |
| AppAnalysis.ExpenseLoop | src/App.jsx:2562-2577 | without an unreadable file: the expense total is the sum of all amounts, and each day keeps its income and gets its expense sum; an unreadable file ends the load |
| AppAnalysis.Records | src/App.jsx:2474-2487 | the records of every file in order, and none when one does not parse |
| AppAnalysis.TodayList | src/App.jsx:2474-2487 | the loop succeeds exactly when every file parses, and then gathers every record in walk order |
| AppAnalysis.LoadAnalysis | src/App.jsx:2508-2590 | nothing is shown exactly when a file of today's lists or of the ranged walks is unreadable; otherwise income, expense, modes, each day's income and expense and each room's total are the sums over the files in range |
| AppAnalysis.DailyWithinRange | src/App.jsx:2532-2575 | only days inside the range get an entry on the chart |
| AppAnalysis.SortedMoreFirst | src/App.jsx:2652 | in a list sorted larger-first an earlier entry is never smaller than a later one |
| AppAnalysis.TopRooms | src/App.jsx:2651-2657 | five rooms (all of them when fewer), larger first, a sub-multiset of the totals, and no room left out took more than any room kept |
| CheckoutPage.AllCheckouts | src/liveupdate/CheckoutPage.jsx:6 | the check-outs (or the `checkoutsList`) in reverse order |
| CheckoutPage.YmdFromDisplay | src/liveupdate/CheckoutPage.jsx:15-28 | a missing date gives "", a full date is kept, `DD/MM/YYYY` is turned into `YYYY-MM-DD`, anything else goes to the `Date` fallback |
| CheckoutPage.YmdFromDisplayIdempotent | src/liveupdate/CheckoutPage.jsx:15-28 | normalising a full date the normaliser gave changes nothing |
| CheckoutPage.RangeDate | src/liveupdate/CheckoutPage.jsx:46 | the range goes by the check-out date when it normalises to something, otherwise by the check-in date |
| CheckoutPage.Filtered | src/liveupdate/CheckoutPage.jsx:31-57 | the kept check-outs keep their order, and a check-out is kept exactly when it passes the search, the date range and the tally filter |
| CheckoutPage.TallySplits | src/liveupdate/CheckoutPage.jsx:50-53 | "tallied" and "not-tallied" split what "all" lists: together they have as many records, and each listed record is in exactly one |
| CheckoutPage.UndatedIgnoresRange | src/liveupdate/CheckoutPage.jsx:46-48 | a check-out with no usable date passes the range whatever it is |
| CheckoutPage.RangeUsesCheckOut | src/liveupdate/CheckoutPage.jsx:45-48 | between full dates the range is the calendar range on a full check-out date |
| CheckoutPage.SearchFinds | src/liveupdate/CheckoutPage.jsx:32-43 | a query found in the lower-cased name, phone or dates finds the check-out |
| ExpensesPage.RowOf | src/liveupdate/ExpensesPage.jsx:37-43 | the row's date is the date or "", its description the first present of description, category and note, its amount `Number(amount) \|\| 0` |
| ExpensesPage.Rows | src/liveupdate/ExpensesPage.jsx:36-44 | one row per expense, in order |
| ExpensesPage.Filtered | src/liveupdate/ExpensesPage.jsx:46-58 | the kept rows keep their order, and a row is kept exactly when it is in the date range and passes the search |
| ExpensesPage.Page | src/liveupdate/ExpensesPage.jsx:60-63 | the total is the sum over the kept rows; at least one page; at most ten rows on a page, each a kept row |
| ExpensesPage.TotalIsAmounts | src/liveupdate/ExpensesPage.jsx:41 | summing the rows' amounts is summing `Number(amount) \|\| 0` over the expenses |
| ExpensesPage.ClearedKeeps | src/liveupdate/ExpensesPage.jsx:34 | cleared inputs keep every row |
| ExpensesPage.ClearFilters | src/liveupdate/ExpensesPage.jsx:34 | every input back to its start, after which every row is kept |
| ExpensesPage.ClearedPage | src/liveupdate/ExpensesPage.jsx:34 | after clearing, the page shows the first ten expenses and the total of all of them |
| ExpensesPage.TotalSplits | src/liveupdate/ExpensesPage.jsx:46-60 | the total shown plus the total of the dropped rows is the total of all rows |
| ExpensesPage.RangeIsCalendarRange | src/liveupdate/ExpensesPage.jsx:49-51 | with full dates on both sides the text range is the calendar range |
| ExpensesPage.SearchFinds | src/liveupdate/ExpensesPage.jsx:52-55 | a query found in the lower-cased description or date finds the row |
| RentPaymentPage.RowOf | src/liveupdate/RentPaymentPage.jsx:48-53 | the row's date is the date, else the month, else ""; a room list is joined with ", ", any other truthy room is its text, and a missing or falsy room gives "" |
| RentPaymentPage.Rows | src/liveupdate/RentPaymentPage.jsx:47-54 | one row per payment, in order |
| RentPaymentPage.Filtered | src/liveupdate/RentPaymentPage.jsx:56-69 | the kept rows keep their order, and a row is kept exactly when it is in the date range, has the chosen mode and passes the search |
| RentPaymentPage.Page | src/liveupdate/RentPaymentPage.jsx:71-74 | the total is the sum over the kept rows; at least one page; at most ten rows on a page, each a kept row |
| RentPaymentPage.ClearedKeeps | src/liveupdate/RentPaymentPage.jsx:39-45 | cleared inputs keep every row |
| RentPaymentPage.ClearFilters | src/liveupdate/RentPaymentPage.jsx:39-45 | every input back to its start, after which every row is kept |
| RentPaymentPage.ClearedPage | src/liveupdate/RentPaymentPage.jsx:39-45 | after clearing, the page shows the first ten payments and the total of all of them |
| RentPaymentPage.TotalSplits | src/liveupdate/RentPaymentPage.jsx:56-71 | the total shown plus the total of the dropped rows is the total of all rows |
| RentPaymentPage.RangeIsCalendarRange | src/liveupdate/RentPaymentPage.jsx:59-61 | with full dates on both sides the text range is the calendar range |
| RentPaymentPage.SearchFinds | src/liveupdate/RentPaymentPage.jsx:63-66 | a query found in the lower-cased name, room text or mode finds the row |
| RentPaymentPage.ModeIgnoresCase | src/liveupdate/RentPaymentPage.jsx:62 | the mode choice is compared without regard to case |
| ReservationsPage.List | src/liveupdate/ReservationsPage.jsx:5 | the reservations in reverse order, none added or lost |
| ReservationsPage.Filtered | src/liveupdate/ReservationsPage.jsx:8-18 | a blank query lists everything; otherwise the kept reservations keep their order and are exactly the matching ones |
| ReservationsPage.RoomFound | src/liveupdate/ReservationsPage.jsx:14-17 | a reservation whose room holds the query is found |
| ReservationsPage.LongerQueryNarrows | src/liveupdate/ReservationsPage.jsx:12-17 | a reservation a longer query finds is found by its every prefix |
| DiskSync.MakeEmptyFloors | src/services/diskSync.js:3-13 | five floors keyed 1..5, four free rooms each numbered `floor * 100 + r`, at rate 2500 with no guest and no hold |
| DiskSync.RecordRooms | src/services/diskSync.js:36 | an array of rooms gives `Number` of each item, in order; any other value gives the one-element list of its `Number` |
| DiskSync.GuestRate | src/services/diskSync.js:54 | a truthy rate that reads as a number is the guest's rate; a missing, falsy or zero rate gives the room's own rate |
| DiskSync.DiskGuest | src/services/diskSync.js:47-56 | the guest's name, contact, id and check-in fall back to "Guest", "", "" and the current time, and its rate is the record's or the room's |
| DiskSync.MarkOccupied | src/services/diskSync.js:42-59 | the room with the listed number is occupied by the record's guest, every other room is unchanged |
| DiskSync.Occupy | src/services/diskSync.js:37-69 | a listed room changes only statuses and guests: numbers, rates and holds of every room stay |
| DiskSync.OccupyAll | src/services/diskSync.js:37-69 | the rooms of one record change only statuses and guests |
| DiskSync.CheckIns | src/services/diskSync.js:30-71 | the walk over the check-in records changes only statuses and guests |
| DiskSync.GridFloorIndex | src/services/diskSync.js:38-40 | in the rebuilt grid a room's first digit finds its floor exactly for floors 1..5 |
| DiskSync.GridRoomDigit | src/services/diskSync.js:38 | every grid room's first digit is its floor |
| DiskSync.OccupyEffect | src/services/diskSync.js:37-59 | one listed room changes the room with that number and no other |
| DiskSync.LastLister | src/services/diskSync.js:30-37 | some readable record lists the room exactly when a last one does |
| DiskSync.OccupyAllEffect | src/services/diskSync.js:37-59 | a grid room is occupied by the record exactly when the record lists its number, otherwise it is unchanged |
| DiskSync.CheckInsEffect | src/services/diskSync.js:30-71 | after the walk a grid room holds the guest of the last readable record listing it, and is unchanged when none does |
| DiskSync.GridStart | src/services/diskSync.js:3-13 | the fresh grid is grid-shaped, and each room is its free room at rate 2500 |
| DiskSync.CheckInsStatus | src/services/diskSync.js:30-71 | a room not yet occupied becomes occupied exactly when some readable record lists it, and is otherwise unchanged |
| DiskSync.CheckInsOccupy | src/services/diskSync.js:19-71 | from the fresh grid, a room is occupied exactly when some readable check-in record lists it, and every other room stays free |
| DiskSync.FreshRoomOccupied | src/services/diskSync.js:19-71 | a fresh grid room is occupied after the walk exactly when some record lists it |
| DiskSync.FreshRoomKept | src/services/diskSync.js:19-71 | a fresh grid room not occupied after the walk is still the fresh room |
| DiskSync.OccupyAllGuests | src/services/diskSync.js:37-69 | one record adds a guest entry for each listed room whose floor exists, and nothing else |
| DiskSync.OccupyGuests | src/services/diskSync.js:38-68 | one listed room adds its guest entry exactly when its floor exists |
| DiskSync.CheckInsGuestsStep | src/services/diskSync.js:32-69 | the last record of the walk adds exactly its own entries |
| DiskSync.CheckInsGuests | src/services/diskSync.js:30-71 | the guest list holds an entry for every readable record and listed room whose floor exists, and nothing else |
| DiskSync.EntryFromSplit | src/services/diskSync.js:30-71 | some record adds an entry exactly when an earlier one or the last one does |
| DiskSync.LoadCheckIns | src/services/diskSync.js:26-74 | the two nested loops compute the walk over all records |
| DiskSync.DiskReservation | src/services/diskSync.js:87-92 | a reservation read back has name "Guest", place "" and the folder's name as its date when those are missing, and its room through `Number` |
| DiskSync.ReservationsOf | src/services/diskSync.js:81-94 | a reservation is read back exactly for each readable record |
| DiskSync.LoadReservations | src/services/diskSync.js:77-97 | the loop reads back exactly the readable records, in order |
| DiskSync.HydrateStateFromDisk | src/services/diskSync.js:15-110 | nothing without a base folder; otherwise the rebuilt floors (with the current rates kept when there are floors), the guest entries and the reservations of the walks |
| DiskSync.HydratedRoom | src/services/diskSync.js:19-107 | end to end, a rebuilt room is occupied exactly when some readable check-in lists it, and its rate is the current state's rate for it when there is one, else 2500 |
| DiskSync.MergedRoomAt | src/services/diskSync.js:100-106 | keeping the current rates changes no number and no status, only the rate, to the current one when it has one |
| DiskSync.CollectionFolder | src/services/diskSync.js:120 | `reservations` and `checkins` go to their capitalised folders, any other collection to its own name |
| DiskSync.FileNameOf | src/services/diskSync.js:127 | a `.json` name: the record's id, or the collection and the time |
| DiskSync.UpsertDiskDoc | src/services/diskSync.js:115-136 | nothing without a base folder, a failure when writing fails, else a `.json` path |
| DiskSync.UpsertPathParts | src/services/diskSync.js:120-131 | the written path splits back into the collection's folder, the date folder and the file name |
| LiveUpdate.CheckInYmd | src/LiveUpdate.jsx:147-160 | the `Date` reading of a present check-in cut to ten characters; otherwise a full check-in date kept, a `DD/MM/YYYY` one turned around, and "" for anything else |
| LiveUpdate.PieceNumbers | src/LiveUpdate.jsx:166-168 | one number per comma-separated piece of the text, each read after trimming |
| LiveUpdate.NonZero | src/LiveUpdate.jsx:169 | exactly the non-zero numbers survive `.filter(Boolean)`, never more than there were |
| LiveUpdate.RoomUnion | src/LiveUpdate.jsx:200-212 | a room is in the union exactly when some document lists it |
| LiveUpdate.AddAll | src/LiveUpdate.jsx:209 | adding one document's rooms adds exactly those rooms |
| LiveUpdate.CollectRooms | src/LiveUpdate.jsx:200-212 | the loop over the documents builds exactly the union of their rooms |
| LiveUpdate.OccupiedRooms | src/LiveUpdate.jsx:200-212 | a room is occupied exactly when some check-in lists it |
| LiveUpdate.ReservedRooms | src/LiveUpdate.jsx:216-226 | a room is reserved exactly when some reservation names it |
| LiveUpdate.RoomsKeyOf | src/LiveUpdate.jsx:162-172 | the key is "" exactly when no non-zero room number is given |
| LiveUpdate.JoinNonEmpty | src/LiveUpdate.jsx:164 | joining non-empty parts is empty exactly when there are none |
| LiveUpdate.NumeralPiece | src/LiveUpdate.jsx:166-168 | the decimal text of a room number has no comma and reads back as itself |
| LiveUpdate.NonZeroOfNums | src/LiveUpdate.jsx:169 | non-zero numbers all survive `.filter(Boolean)` |
| LiveUpdate.PiecesOfNumerals | src/LiveUpdate.jsx:166-168 | a comma-separated text of room numbers reads back as those numbers |
| LiveUpdate.ArrayNumbers | src/LiveUpdate.jsx:164 | an array of non-zero numbers keeps all of them |
| LiveUpdate.TextNumbers | src/LiveUpdate.jsx:166-169 | a comma-separated text of non-zero numbers keeps all of them |
| LiveUpdate.RoomsKeyIgnoresForm | src/LiveUpdate.jsx:162-172 | an array of rooms and a comma-separated text of the same rooms, in any order, give the same key |
| LiveUpdate.RoomsKeySameRooms | src/LiveUpdate.jsx:162-172 | two room values give the same key exactly when they list the same non-zero rooms, each as often, so the approximate index never mixes different room sets |
| LiveUpdate.SlotSumOutside | src/LiveUpdate.jsx:233-250 | a key no payment is booked under totals 0 |
| LiveUpdate.TotalsStep | src/LiveUpdate.jsx:236-248 | one more payment keeps each key's total the sum of the payments booked under it |
| LiveUpdate.PaymentsIndex | src/LiveUpdate.jsx:233-250 | each exact key's total is the sum of the payments with that name and check-in day, each approximate key's the sum of those with that name and rooms and no check-in day, and no other key is present |
| LiveUpdate.PaidSoFarFromPayments | src/LiveUpdate.jsx:308-318 | the paid amount on a guest card is the exact total, or when that is 0 the approximate total, computed from the payments themselves |
| LiveUpdate.GuestFilter | src/LiveUpdate.jsx:254-260 | a blank search lists every guest; otherwise the kept guests keep their order and are exactly the matching ones |
| LiveUpdate.GridStatus | src/LiveUpdate.jsx:377-380 | occupied when a check-in lists the room, reserved when none does and a reservation does, free otherwise |
| LiveUpdate.NumberLeTotal | src/LiveUpdate.jsx:375 | the order by room number is total |
| LiveUpdate.OverlayAll | src/LiveUpdate.jsx:376-411 | one shown room per room, each with its live status |
| LiveUpdate.ShownRooms | src/LiveUpdate.jsx:375-411 | overlaying a sorted rearrangement of a floor shows every room, in number order |
| LiveUpdate.ShowFloor | src/LiveUpdate.jsx:374-411 | the floor keeps its key and size, its rooms are in number order, every room is shown with its live status and nothing else is |
| LiveUpdate.RoomsByFloor | src/LiveUpdate.jsx:372-413 | every floor of the layout is shown, in turn |
| LiveUpdate.GridFromDocuments | src/LiveUpdate.jsx:200-226 | a grid room is shown occupied exactly when some check-in lists it, reserved exactly when none does and some reservation names it, free otherwise |
| LiveUpdate.LastSegment | src/LiveUpdate.jsx:427 | the last path segment holds no slash |
| LiveUpdate.SplitAround | src/LiveUpdate.jsx:427 | splitting around one separator splits each side |
| LiveUpdate.LastAfterSlash | src/LiveUpdate.jsx:427 | the segment after the last slash is the last segment |
| LiveUpdate.SubPageByLastSegment | src/LiveUpdate.jsx:427-433 | the last segment picks the sub-page whatever precedes it, and a trailing slash picks none |
| LiveUpdates.EnvelopeApplies | src/components/LiveUpdates.jsx:65-73 | an envelope stamped `t` is applied exactly when `t` is not zero and later than the recorded stamp (or positive when none is recorded) |
| LiveUpdates.AppliedOnce | src/components/LiveUpdates.jsx:72-75 | once a payload is applied and its stamp recorded, polling it again applies nothing |
| LiveUpdates.OwnPushNotApplied | src/components/LiveUpdates.jsx:89-93 | after a successful push, polling back the payload just pushed applies nothing |
| LiveUpdates.SseState | src/components/LiveUpdates.jsx:218-226 | only an "init" or "update" message is taken, and it leaves its state, or `{}` when it has none |
| LiveUpdates.ServerMessageState | src/components/LiveUpdates.jsx:218-226 | a server message of type "init" or "update" delivers its state, and any other type is ignored |
| LiveUpdates.RegisterOutcome | src/components/LiveUpdates.jsx:191-196 | a failed request is an error, an answer without a truthy `id` is an invalid response, and otherwise the share holds the answer's id and token and its `publicUrl`, else `netlifyUrl`, else null |
| LiveUpdates.TrimSlash | src/components/LiveUpdates.jsx:190 | one trailing slash is removed, and a server without one is kept |
| LiveUpdates.UpdateUrl | src/components/LiveUpdates.jsx:159-160 | there is an update address exactly when a share with a truthy id exists |
| LiveUpdates.SseUrl | src/components/LiveUpdates.jsx:208-210 | there is a live-message address exactly when a share with a truthy id exists |
| LiveUpdates.ShareUrlParts | src/components/LiveUpdates.jsx:160 | the encoded id and the encoded token (when there is one) can be read back from the share address |
| LiveUpdates.ReadableExactly | src/components/LiveUpdates.jsx:246-262 | a record is gathered exactly when some file of the day folder reads back as it and it is truthy |
| LiveUpdates.TodayRecords | src/components/LiveUpdates.jsx:244-263 | the list holds exactly the truthy records the day folder's files gave, each as often as read, ordered by `_createdTime` from latest to earliest |
| LiveUpdates.LatestFirst | src/components/LiveUpdates.jsx:251-263 | in the sorted list no record has a later `_createdTime` than any record ahead of it |
| LiveUpdates.LiveStore.constructor | src/components/LiveUpdates.jsx:12-25 | the page opens on the stored state, or `{ floors: {}, reservations: [], guests: [] }`, with status "idle" |
| LiveUpdates.LiveStore.ReloadLocal | src/components/LiveUpdates.jsx:33-37 | a truthy stored state is shown, and nothing else changes |
| LiveUpdates.LiveStore.PollRemote | src/components/LiveUpdates.jsx:59-81 | a payload newer than the recorded stamp is stored, shown and its stamp recorded; any other answer changes nothing |
| LiveUpdates.LiveStore.PushLocal | src/components/LiveUpdates.jsx:84-101 | the payload sent is the stored state (or `{}`) stamped now with the client id; on success the stamp becomes now and the status "ok", otherwise "error" |
| LiveUpdates.LiveStore.OnSseMessage | src/components/LiveUpdates.jsx:218-227 | an accepted message's state is stored and shown; any other message changes nothing |
| LiveUpdates.LiveStore.RegisterShare | src/components/LiveUpdates.jsx:184-203 | a valid answer becomes the share with status "ok"; otherwise the share is kept and the status is "error" |
| LiveSummary.StoredStatus | src/components/LiveUpdates.jsx:278 | a room is counted occupied or reserved exactly when its stored status says so, and free for any other text |
| LiveSummary.StoredCountsPartition | src/components/LiveUpdates.jsx:276-281 | every room is counted under exactly one of free, reserved and occupied |
| LiveSummary.OccupiedAgreesWithDashboard | src/components/LiveUpdates.jsx:278 | the live pages count as occupied exactly the rooms the Dashboard does |
| LiveSummary.CountStoredStep | src/components/LiveUpdates.jsx:277-279 | one more room adds one to the count of its own status only |
| LiveSummary.CountStoredSnoc | src/components/LiveUpdates.jsx:277-279 | a room added at the end adds one to the count of its own status only |
| LiveSummary.CountFloor | src/components/LiveUpdates.jsx:277-280 | the inner loop adds one floor's rooms to the counts, keeping the total the sum of the three |
| LiveSummary.StatusCounts | src/components/LiveUpdates.jsx:274-281 | the total is the number of rooms, each status count the number of rooms with it, and the three add up to the total |
| LiveSummary.ArrivalsExactly | src/components/LiveUpdates.jsx:283-290 | an entry is gathered exactly for each occupied room with a guest |
| LiveSummary.ArrivalsStep | src/components/LiveUpdates.jsx:285-289 | one more room adds its entry exactly when it is occupied with a guest |
| LiveSummary.NotOlderTotal | src/components/LiveUpdates.jsx:291 | the latest-first comparison is total |
| LiveSummary.RecentCheckins | src/components/LiveUpdates.jsx:283-291 | the recent list is a rearrangement of the gathered entries, latest check-in first |
| LiveSummary.RecentHoldsLodged | src/components/PublicLive.jsx:67-71 | the recent list holds a room's entry exactly when that room is occupied with a guest |
| LiveSummary.NewestFirst | src/components/PublicLive.jsx:71 | in the sorted recent list no entry is later than an entry before it |
| PublicLive.ResolveSource | src/components/PublicLive.jsx:19-30 | the mapping file's truthy entry for the id wins; otherwise a non-empty stored `live_public_url_<id>`; otherwise no source |
| PublicLive.MappingWins | src/components/PublicLive.jsx:19-22 | a mapping file naming the id wins over any stored address |
| PublicLive.SavedLinkFound | src/components/PublicLive.jsx:26-27 | without a mapping file, an address saved under the id's key is found unless it is empty |
| PublicLive.PolledState | src/components/PublicLive.jsx:48-52 | a poll answer is shown exactly when its unwrapped state is truthy, and then it is that state |
| PublicLive.PolledEnvelope | src/components/PublicLive.jsx:48-52 | an envelope around a non-empty state shows that state, and a `null` answer shows nothing new |
| PublicLive.PublicView.constructor | src/components/PublicLive.jsx:9-10 | the page opens on the stored state, or `{ floors: {}, reservations: [] }`, with no source |
| PublicLive.PublicView.Resolve | src/components/PublicLive.jsx:14-37 | the source becomes the resolved one and the state on screen is kept |
| PublicLive.PublicView.Poll | src/components/PublicLive.jsx:43-54 | while running, a truthy unwrapped state replaces the one on screen; otherwise nothing changes |
| PublicLive.PublicView.Stop | src/components/PublicLive.jsx:57 | leaving stops the polling and keeps the state |
| MobileView.SafeNameForSearch | src/components/MobileView.jsx:6-8 | a missing name gives ""; the result holds only lower-case word characters and `-`, and lower-casing it changes nothing |
| MobileView.SafeNameForSearchReplacesRun | src/components/MobileView.jsx:6-8 | in a search name each run of unsafe characters is one `_`, with the text on either side made safe and lower-cased |
| MobileView.SafeNameForSearchKeeps | src/components/MobileView.jsx:6-8 | a name already made of lower-case letters, digits, `_` and `-` is its own search name |
| MobileView.SafeNameForSearchIdempotent | src/components/MobileView.jsx:6-8 | making a search name of a search name changes nothing |
| MobileView.CardOf | src/components/MobileView.jsx:76-78 | a guest card lists its room alone and the guest's name, and shows the check-in time, else the check-in date |
| MobileView.CardsMatchArrivals | src/components/MobileView.jsx:73-81 | the current guests are the live pages' recent check-ins before sorting, one for one: the same rooms and names |
| MobileView.CardsExactly | src/components/MobileView.jsx:73-81 | a card is listed exactly for each occupied room with a guest |
| MobileView.CardsStep | src/components/MobileView.jsx:75-79 | one more room adds its card exactly when it is occupied with a guest |
| MobileView.CurrentGuests | src/components/MobileView.jsx:73-81 | the nested loops gather exactly the cards of every floor's rooms, in order |
| MobileView.CardFoundByRoom | src/components/MobileView.jsx:85-89 | searching for a room number finds its guest card |
| MobileView.NumberTextIsLower | src/components/MobileView.jsx:88 | a room number written out is unchanged by lower-casing |
| MobileView.RowsOf | src/components/MobileView.jsx:28-38 | never more rows than files visited |
| MobileView.RowsExactly | src/components/MobileView.jsx:28-38 | a row is read for exactly each parsed `.json` file in a date folder, tagged with that folder's name |
| MobileView.RowsStep | src/components/MobileView.jsx:30-36 | one more entry of a date folder adds a row exactly when it is a parsed `.json` file |
| MobileView.ReadDateDirectory | src/components/MobileView.jsx:30-37 | the inner loop adds exactly the rows of one date folder's parsed files |
| MobileView.LoadRows | src/components/MobileView.jsx:27-38 | the loop over the date folders reads exactly the rows of the walk, in order |
| MobileView.FolderNotOlderTotal | src/components/MobileView.jsx:39 | the latest-folder-first comparison is total |
| MobileView.Latest | src/components/MobileView.jsx:39-40 | at most 200 rows, all of them read, latest folder first, and no row left out has a later folder than one kept |
| MobileView.TakeLatest | src/components/MobileView.jsx:39-40 | the first rows of a latest-first order are read rows and hold every row with a later folder |
| MobileView.SortedNotOlder | src/components/MobileView.jsx:39 | in a latest-first list no later entry has a later folder name |
| MobileView.Shown | src/components/MobileView.jsx:179-198 | the first fifty rows that pass the search, in their order (all of them when fifty or fewer pass), each one of the loaded rows |
| MobileView.RowFoundByFolder | src/components/MobileView.jsx:85-89 | searching for a row's folder name finds it |
| MobileView.FileOrderSnoc | src/components/MobileView.jsx:100-105 | one more entry adds its own files at the end of the walk order |
| MobileView.FirstMatch | src/components/MobileView.jsx:104 | a found name contains the search name and comes first among those that do; none found means no name contains it |
| MobileView.FirstMatchAppend | src/components/MobileView.jsx:100-106 | the first match in two parts is the first part's, or else the second's |
| MobileView.StopEarly | src/components/MobileView.jsx:101 | once a file has matched, the rest of the walk does not matter |
| MobileView.ScanStep | src/components/MobileView.jsx:100-105 | while nothing has matched, one more entry's answer is that entry's own |
| MobileView.FileNodeMatch | src/components/MobileView.jsx:103-104 | a file matches exactly when its lower-cased name contains the search name |
| MobileView.Recurse | src/components/MobileView.jsx:99-107 | an earlier find is kept; otherwise the walk finds the first file, in walk order, whose lower-cased name contains the search name |
| MobileView.FileOrderSplit | src/components/MobileView.jsx:100-106 | a folder's walk order is that of its first entries, then that of the rest |
| MobileView.FindScanned | src/components/MobileView.jsx:91-110 | the scanned document found is the first file, in walk order, whose name contains the guest's search name |
| RemoteView.LookupHeld | src/components/RemoteView.jsx:18-22 | with distinct keys, looking a key up finds the one entry holding it |
| RemoteView.Merge | src/components/RemoteView.jsx:18-22 | a key already there keeps its place and takes the new data, a new key goes last, and no other entry changes |
| RemoteView.MergeSetsOneKey | src/components/RemoteView.jsx:18-22 | afterwards the key holds the data, every other key holds what it held, no key is lost and none is doubled |
| RemoteView.Collections.constructor | src/components/RemoteView.jsx:9-13 | the page opens with five empty collections |
| RemoteView.Collections.Deliver | src/components/RemoteView.jsx:18-28 | truthy data delivered on one of the five subscribed collections is merged into that collection only; empty data and other collections change nothing |
| RemoteView.MergeKeepsHeld | src/services/realtime.js:29-31 | merging truthy data keeps a collection holding only truthy data under distinct keys |
| RemoteView.ReservationDate | src/components/RemoteView.jsx:50 | the reservation's date when truthy; null when it has neither a date nor a check-in time |
| RemoteView.CellOf | src/components/RemoteView.jsx:80-82 | occupied exactly when a check-in lists the room, reserved exactly when none does and a reservation is for today, free otherwise |
| RemoteView.CheckinWins | src/components/RemoteView.jsx:80-82 | a delivered check-in listing the room paints it occupied whatever the reservations say |
| RemoteView.MergedCheckin | src/components/RemoteView.jsx:18-44 | after a check-in for a key arrives, a room shows a check-in exactly when the new data or a check-in under another key lists it |
| RemoteView.NumberRoomForm | src/components/RemoteView.jsx:41-42 | a check-in naming its room as a number marks that room |
| RemoteView.TextRoomForm | src/components/RemoteView.jsx:41-42 | a check-in naming its room as text marks the room `Number` reads it as |
| RemoteView.ArrayRoomForm | src/components/RemoteView.jsx:41-42 | a check-in for several rooms marks each room its array names, as a number or as text |
| RemoteView.ReservationForms | src/components/RemoteView.jsx:46-53 | a reservation dated today, or undated with a check-in time starting with today, marks the room reserved; a check-in time is not looked at when a date is present |
| RemoteView.FloorsGrid | src/components/RemoteView.jsx:55-62 | five floors numbered 1..5 of four rooms numbered `floor * 100 + r`, the same numbers as the hotel's fresh grid |
| RemoteView.LastTwo | src/components/RemoteView.jsx:86 | the last two characters, or all of a shorter text |
| RemoteView.LabelIsNumber | src/components/RemoteView.jsx:86 | the label of every grid room is its number written out |
| RemoteView.Recent | src/components/RemoteView.jsx:100-139 | the last thirty entries, or all when fewer, newest first |
| RemoteView.UpdateKeepsPlace | src/components/RemoteView.jsx:18-22 | data for a key already there is shown in that key's old place |
| RemoteView.NewKeyFirst | src/components/RemoteView.jsx:18-22 | a new key lands at the head of its side list |
| RemoteView.DatedToday | src/components/RemoteView.jsx:113 | exactly the reservations whose date, cut to ten characters, is today |
| RemoteView.TodayList | src/components/RemoteView.jsx:112-113 | of the reservations whose date, cut to ten characters, is today, the last thirty (all when fewer), newest first |
| RemoteView.TodayListComplete | src/components/RemoteView.jsx:112-113 | when at most thirty reservations are dated today the list holds each of them |
| RemoteView.ListAndGridAgree | src/components/RemoteView.jsx:46-53 | for a date of at most ten characters the list and the grid agree on whether a reservation is today's |
| RemoteView.LongDateListedNotReserved | src/components/RemoteView.jsx:50-113 | a reservation whose date carries a time after the day is listed as today's but its room is not painted reserved |

## Left out

- The desktop shell in `src-tauri/src/lib.rs`: it only starts an external program behind platform checks.
- The sync server and its scripts (`server/index.js`, `server/inspectMongo.mjs`, `server/showCurrent.mjs`, `server/test-register2.js`, and the database write in `server/seedDefault.mjs`): HTTP routes and MongoDB and GridFS I/O. Only the seed state is modelled.
- The network and storage wrappers (`src/services/mongoSync.js`, `src/services/cloudSync.js`, `src/services/realtime.js`, `src/services/storageAdapter.js`, `src/remote/RemoteDashboard.jsx`): thin calls into fetch, Firebase and Gun. Their answers reach the model as parameters.
- The File System Access and IndexedDB plumbing (`src/utils/fsAccess.js`, `src/utils/sharedSync.js`, `src/utils/initStructure.js`, `src/components/StorageSetup.jsx`, and the folder handle in `src/services/diskSync.js:1-2,26-28`): directory walks and file reads are given as lists of already-read records, with `None` for a file that does not read or parse.
- Bootstrapping, configuration and event forwarding (`src/main.jsx`, `vite.config.js`, `eslint.config.js`, `src/components/SharedViewer.jsx`, `src/utils/cacheBus.ts`): no logic of their own.
- React rendering, styling, charts, toasts, the KPI count-up animation, resize handlers, `setInterval` polling (`src/components/PublicLive.jsx:56`) and debouncing: the model states what one poll or one event does, not when it happens.
- Gun and realtime set-up in the remote view (`initGun`, the default peers, the `offCollection` clean-up in `src/components/RemoteView.jsx:16,30-32`): network libraries.
- The clock and date parsing: today's date, `new Date().toISOString()`, `Date.now()` and what `new Date(text)` parses to are parameters, because their results depend on the time zone and the locale. `toLocale*` formatting is not modelled.
- The sorts by parsed dates: the base lists of `src/liveupdate/ExpensesPage.jsx:8-12` and `src/liveupdate/RentPaymentPage.jsx:8-12`, and the check-in and checkout lists of `src/LiveUpdate.jsx:70-74,416-425`. Their input is taken as already in that order.
- The order of equal elements after a sort: `Array.prototype.sort` is modelled as a stable insertion sort. The recent-list comparator `(b.time||'') > (a.time||'') ? 1 : -1` in `src/components/LiveUpdates.jsx` is not consistent on equal times, so ties may end up in another order in a browser.
- LiveUpdates.TodayRecords: a `_createdTime` that `Number` reads as NaN sorts as 0, while the browser's comparator then answers NaN and the order it gives is unspecified.
- `localeCompare` in the mobile view's sorts (`src/components/MobileView.jsx:39,60`) is modelled as code-unit order: locale collation is outside the model.
- `Number(text)` reads only optionally signed runs of decimal digits. Fractions, exponents, hex and `Infinity` read as NaN, and amounts are integers: the source's floating point is not modelled.
- Unicode whitespace in `trim`, case folding, object members whose keys look like integers (JavaScript puts them first), and duplicate keys beyond "the last one wins".
- `Text.LexLess` compares texts character by character as code points. JavaScript's `<` on strings compares UTF-16 code units, which orders differently only for characters outside the Basic Multilingual Plane.
- A `checkIn` or reservation date that is not a string: the source would throw on `.slice`; the model reads the value as its text.
- The text on the remote view's cards (`src/components/RemoteView.jsx:101-104,114-117,127-130,140-143`) and the opening of a scanned ID file (`src/components/MobileView.jsx:111-113`): presentation only.
- `encodeURIComponent` is a parameter of the share addresses: percent-encoding is not modelled.
- `testRemoteNow` and `pushNow` (`src/components/LiveUpdates.jsx:129-181`): manual network probes. Of `createPublicLink` (`src/components/LiveUpdates.jsx:297-301`) only the storage key `live_public_url_<id>` is modelled, in `PublicLive.LinkKey`.
- `findCheckinFile` and `getRateFromCheckin` (`src/App.jsx:1003-1062`) and `loadCheckoutList` (`src/App.jsx:1161-1180`): directory searches. Checkout takes the rate they find as a parameter.
- The persistence writes of the owner's pages: `saveState` (`src/App.jsx:66`, called at 355, 706, 1152 and 1454), `persistReservation` (`src/App.jsx:1366`) and `deleteReservationFile` (`src/App.jsx:511,1383`). They write the state the model computes to the browser's storage and to files. Of `saveCheckinData` (`src/App.jsx:707-713`) the record written is modelled, in `AppRooms.CheckinRecord`, and `AppRooms.SavedCheckinOccupies` reads it back through the disk loader; the file write itself is not.
- DiskSync.GuestRate: a truthy `rate` that `Number` reads as NaN is replaced by the room's rate, while `src/services/diskSync.js:54` keeps the raw value. A guest's rate is a number in the model.
- `uploadFileToServer` (`src/services/upload.js:2-12`): a multipart upload. Only the download link is modelled.
- The service worker's `install` handler (`public/sw.js:13-19`) and the broadcast channel that announces fresh data: the model records that an update is announced, not how.
- The undefined `navigate` calls in `src/liveupdate/RentPaymentPage.jsx:81` and `src/liveupdate/ExpensesPage.jsx:70`: a broken back button, not logic.
- ExpensesPage.Page: states the bounds and the membership of the page only. The exact slice and the page count are those of `ListView.View`, which it is built on.
- RentPaymentPage.Page: states the bounds and the membership of the page only. The exact slice and the page count are those of `ListView.View`, which it is built on.
- Text.Trim: its own ensures give the shape of the result only. That the result is the infix of the input with whitespace alone around it is the separate lemma `Text.TrimIsInfix`, which keeps the many callers of `Trim` cheap to verify.
- Text.NumberOf: its own ensures cover blank text and unsigned digits only. The signed numerals and when the result is NaN are stated in the separate lemma `Text.NumberOfCases`, for the same reason.
- Text.SafeName: its own ensures give the safe alphabet and the length bound only. That each unsafe run becomes one `_` is the separate lemma `Text.SafeNameReplacesRun`.
- MobileView.SafeNameForSearch: its own ensures give the alphabet only. The run replacement is the separate lemma `MobileView.SafeNameForSearchReplacesRun`.
- LiveUpdate.RoomsKeyOf: its own ensures say only when the key is empty. That two room values share a key exactly when they list the same rooms is the separate lemma `LiveUpdate.RoomsKeySameRooms`.
- AppAnalysis.AddMode: the tallies are Dafny maps, which hold only the keys put in them. A page object also answers for the names every JavaScript object inherits (`toString`, `constructor`, `hasOwnProperty`), and the model does not follow it there. A payment whose mode is `"toString"` passes the `!== undefined` guard and gives the tally an own entry holding text; the model ignores that mode. AppAnalysis.AddRoom differs the same way: for a room key `"constructor"`, `(roomAgg[k] || 0) + amount` joins text, where the model adds numbers. AppAnalysis.AddIncome and AppAnalysis.AddExpense never give a folder named `"constructor"` an entry of its own, where the model does.
