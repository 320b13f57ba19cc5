# Event Hub Lite — a verified model of the offline cache and its screens

Event Hub Lite is a React Native app for browsing events. It pages through a
catalogue served by a mock API and caches every event it sees in an SQLite
table. When the network fails it falls back to that cache, and it keeps the
user's favourites there.

This project models the data side of the app:

- **The SQLite store** (`SQLiteDatabase`). The class keeps an `isOpen` flag
  and the `events` table as a map from id to row. It covers paging with
  `LIKE` search and category filters, upserts that keep the favourite flag,
  the favourite toggle, seven-day eviction of non-favourites, and the
  "database not initialized" guard.
- **The service façade** (`DatabaseService`). It swallows every store error
  and returns a neutral value instead.
- **The start-up service** (`DatabaseInitService`). It opens the store once
  and evicts stale rows.
- **The mock API**: filtering, paging, detail lookup with generated records,
  the checkout validations and reference, categories and availability.
- **The four screens**:
  - Dashboard: paged list, search, category, hearts;
  - Event details: remote or cached details, favourite, sold-out check;
  - Favourites: list, refresh, un-favourite;
  - Checkout: form, quantity rule, checks, timer, total.

  Each screen is a class whose fields are the component's state. Its
  handlers are methods, and each handler is given the API's answer.
- **The string utilities**: email validation, `capitalize`, the
  character-class tests and `validateNumbers`.

The modules and files are:

| module | file |
|---|---|
| `Types` | `types.dfy` |
| `Strings` | `strings.dfy` |
| `Paging` | `paging.dfy` |
| `SqlLike` | `sql_like.dfy` |
| `EventTable` | `event_table.dfy` |
| `TableProperties` | `table_properties.dfy` |
| `SQLiteStore` | `sqlite_database.dfy` |
| `DatabaseFacade` | `database_service.dfy` |
| `DatabaseStartup` | `database_init.dfy` |
| `MockApi` | `mock_api.dfy` |
| `Utilities` | `utilities.dfy` |
| `DashboardScreen` | `dashboard.dfy` |
| `EventDetailsScreen` | `event_details.dfy` |
| `FavoritesScreen` | `favorites.dfy` |
| `CheckoutScreen` | `checkout.dfy` |

How the specification functions are defined:

- Ordering: `Listing` is the `ORDER BY cached_at DESC` order of a set of
  rows. `ListingUnique` shows it is the only ordered arrangement of those
  rows.
- Paging: `CachePage` is the store's page and `MockApi.GetEvents` is the
  API's page. `PagesUpTo` and `RemotePagesUpTo` are the lists the dashboard
  builds by paging.
- Store methods: each is proved equal to one of these functions (`Upsert`,
  `Toggle`, `Evict`, …), and the lemmas state what those functions preserve.

## Model

| member | source | states |
|---|---|---|
| Types.Classify | src/services/mockApiService.ts:191-195 | 'sold_out' iff no seats remain, 'limited' iff some but fewer than ten, 'available' iff ten or more |
| Types.Ids | src/screens/dashboard/Dashboard.tsx:92 | `events.map(event => event.id)`: one id per event, in order |
| Strings.Lower | src/services/mockApiService.ts:47 | lower-casing keeps the length and maps each character on its own |
| Strings.Includes | src/services/mockApiService.ts:47 | `includes`: some position where the query occurs; related to `LIKE` by `SqlLike.LikeAgreesWithIncludes` |
| Strings.IsJsWhitespace | src/services/mockApiService.ts:142 | the characters of JavaScript's `\s` (and of `trim`): the WhiteSpace and LineTerminator code points |
| Strings.TrimStart | src/utils/utility-functions/UntilityFunctions.ts:10-11 | the result is a suffix; everything dropped is whitespace; it starts with a non-space |
| Strings.TrimEnd | src/utils/utility-functions/UntilityFunctions.ts:10-11 | the result is a prefix; everything dropped is whitespace; it ends with a non-space |
| Strings.Trim | src/utils/utility-functions/UntilityFunctions.ts:10-11 | `trim()` yields a middle slice with only whitespace cut on either side, and its ends are not whitespace |
| Strings.TrimEmptyIffBlank | src/utils/utility-functions/UntilityFunctions.ts:10 | `trim().length > 0` fails exactly for strings made only of whitespace |
| Strings.NatToString | src/services/mockApiService.ts:153-155 | `String(n)` is a non-empty run of digits with no leading zero |
| Strings.PadStart | src/services/mockApiService.ts:153-155 | `padStart` keeps the string as a suffix and fills the front up to the width |
| Strings.DigitPrefix | src/screens/checkout/Checkout.tsx:61 | `parseInt` reads the longest run of digits and stops at the first non-digit |
| Strings.ParseUnsigned | src/screens/checkout/Checkout.tsx:61 | an unsigned `parseInt` result is never negative |
| Strings.ParseInt | src/screens/checkout/Checkout.tsx:61 | `parseInt`: leading white space skipped, an optional sign, hexadecimal behind `0x`, NaN when no digit follows; specified by `ParseIntOfDigits`, `ParseIntOfNatToString`, `ParseIntOfNegated`, `ParseIntOfPadded` |
| Strings.NatToStringValue | src/services/mockApiService.ts:153-155 | the decimal digits of n read back as n |
| Strings.ParseIntOfDigits | src/screens/checkout/Checkout.tsx:61 | `parseInt` of a non-empty digit string is its decimal value |
| Strings.ParseUnsignedOfDigits | src/screens/checkout/Checkout.tsx:61 | a non-empty digit run is read in base 10 and in full |
| Strings.DigitPrefixOfDigits | src/screens/checkout/Checkout.tsx:61 | the digit prefix of a digit string is the whole string |
| Strings.ParseIntOfNatToString | src/screens/checkout/Checkout.tsx:61 | `parseInt(String(n)) == n` |
| Strings.ParseIntOfNegated | src/screens/checkout/Checkout.tsx:61 | `parseInt("-" + String(n)) == -n` |
| Strings.ParseIntOfMinusDigits | src/screens/checkout/Checkout.tsx:61 | `parseInt` of a minus sign and a digit string is minus the digits' value |
| Strings.LeadingZerosValue | src/services/mockApiService.ts:153-155 | leading zeros do not change a digit string's value |
| Strings.ParseIntOfPadded | src/services/mockApiService.ts:153-155 | a zero-padded number parses back to itself |
| Paging.LimitOffset | src/database/sqliteDatabase.ts:95-104 | `LIMIT ? OFFSET ?` keeps at most `limit` rows starting at the offset |
| Paging.JsIndex | src/services/mockApiService.ts:62 | a slice bound is clamped to the length, and a negative one counts from the end |
| Paging.JsSlice | src/services/mockApiService.ts:62 | `slice(start, end)` is the clamped sub-sequence, at most `end - start` long, drawn from the input |
| Paging.SlicesAgree | src/database/sqliteDatabase.ts:95-104 | for page ≥ 1 the store's LIMIT/OFFSET page equals the API's slice |
| Paging.RemotePageZeroEmpty | src/services/mockApiService.ts:59-62 | page 0 of the API is always empty |
| Paging.HasMoreIffNextPageNonEmpty | src/database/sqliteDatabase.ts:120 | `offset + pageSize < total` iff the next page is non-empty, on both sides |
| Paging.AccumulatedIsPrefix | src/screens/dashboard/Dashboard.tsx:85-90 | pages 1..p appended in turn make the first p·10 items |
| Paging.PagesDisjoint | src/database/sqliteDatabase.ts:95-104 | two different pages of a duplicate-free list share no item |
| SqlLike.Like | src/database/sqliteDatabase.ts:84-87 | SQLite's `LIKE` with `%` and `_`, ASCII case folded; specified by `LikePercent`, `LikePrefix`, `LikeLeadingPercent`, `LikeUnderscorePercent` |
| SqlLike.TitleLike | src/database/sqliteDatabase.ts:84-87 | `title LIKE '%q%'`; related to the API's search by `LikeAgreesWithIncludes` and `UnderscoreQueryDiffers` |
| SqlLike.LikePercent | src/database/sqliteDatabase.ts:84-87 | `%` matches every title |
| SqlLike.LikePrefix | src/database/sqliteDatabase.ts:84-87 | a wildcard-free pattern followed by `%` matches exactly the case-folded prefixes |
| SqlLike.LikeLeadingPercent | src/database/sqliteDatabase.ts:84-87 | a leading `%` matches iff the rest matches some suffix |
| SqlLike.LikeAgreesWithIncludes | src/database/sqliteDatabase.ts:84-87 | for a query without `%`/`_`, `title LIKE %q%` holds iff the lower-cased title includes the lower-cased query |
| SqlLike.FoldPrefixIffOccurs | src/services/mockApiService.ts:47 | the query matches the title at a position up to ASCII case iff the lower-cased query occurs there in the lower-cased title |
| SqlLike.UnderscoreQueryDiffers | src/database/sqliteDatabase.ts:84-87 | for the query `_` the cache's `LIKE '%_%'` matches exactly the non-empty titles, the API's search exactly the titles containing `_` |
| SqlLike.LikeUnderscorePercent | src/database/sqliteDatabase.ts:84-87 | the pattern `_%` matches exactly the non-empty strings |
| EventTable.SummaryOf | src/database/sqliteDatabase.ts:107-118 | a row read back as an `Event` carries the row's id, title, category, date, city, price and thumbnail |
| EventTable.DetailsOf | src/database/sqliteDatabase.ts:141-155 | a row read as details uses '' / [] / 0 for the columns a summary save left empty |
| EventTable.SummaryRow | src/database/sqliteDatabase.ts:198-217 | a summary save reads back as the same event, with the detail columns empty |
| EventTable.DetailRow | src/database/sqliteDatabase.ts:231-257 | a details save reads back as the same details |
| EventTable.Upsert | src/database/sqliteDatabase.ts:198-217 | `INSERT OR REPLACE` adds or replaces one row, keeps its favourite flag and stamps it now; other rows are unchanged |
| EventTable.UpsertAll | src/database/sqliteDatabase.ts:196-219 | the loop of `saveEvents`, one upsert per event in order; specified by the `TableProperties.UpsertAll*` lemmas |
| EventTable.UpsertDetails | src/database/sqliteDatabase.ts:227-262 | the same for a full details row |
| EventTable.Toggle | src/database/sqliteDatabase.ts:277-284 | only the one row's favourite flag flips |
| EventTable.IsStale | src/database/sqliteDatabase.ts:316 | a non-favourite row cached more than seven days before now; `Evict` removes exactly these |
| EventTable.Evict | src/database/sqliteDatabase.ts:311-322 | a row stays iff it is a favourite or was cached within seven days; survivors are unchanged |
| EventTable.RowMatches | src/database/sqliteDatabase.ts:77-87 | the WHERE clause for one row; specified by `MatchingIds` and `MockApi.RemoteAndCacheSelectAlike` |
| EventTable.MatchingIds | src/database/sqliteDatabase.ts:71-87 | the WHERE clause selects exactly the rows of the category whose title is LIKE the query |
| EventTable.FavoriteIds | src/database/sqliteDatabase.ts:167 | `is_favorite = 1` selects exactly the favourite rows |
| EventTable.IdLessTransitive | src/database/sqliteDatabase.ts:100 | the tie-break order on ids is transitive |
| EventTable.IdLessTotal | src/database/sqliteDatabase.ts:100 | any two distinct ids are ordered |
| EventTable.BeforeTransitive | src/database/sqliteDatabase.ts:100 | the newest-first row order is transitive |
| EventTable.BeforeTotal | src/database/sqliteDatabase.ts:100 | any two distinct rows are ordered |
| EventTable.FirstExists | src/database/sqliteDatabase.ts:100 | every non-empty set of rows has a newest row |
| EventTable.FirstUnique | src/database/sqliteDatabase.ts:100 | that newest row is unique |
| EventTable.Listing | src/database/sqliteDatabase.ts:97-101 | `ORDER BY cached_at DESC` lists every selected row exactly once, in order |
| EventTable.ListingHead | src/database/sqliteDatabase.ts:97-101 | the listing starts with the newest row, followed by the listing of the rest |
| EventTable.ListingStep | src/database/sqliteDatabase.ts:97-101 | taking the newest remaining row keeps "rows taken, then the listing of the rest" equal to the whole listing |
| EventTable.Summaries | src/database/sqliteDatabase.ts:107-118 | the row loop yields one event per row, in row order |
| EventTable.CachePage | src/database/sqliteDatabase.ts:66-127 | a page holds at most ten matching rows read as events, the total counts every match, and `hasMore` is `offset + 10 < total` |
| EventTable.FavoritesList | src/database/sqliteDatabase.ts:163-189 | the favourites query returns one summary per favourite row |
| TableProperties.LastIndex | src/database/sqliteDatabase.ts:196-218 | the last event in a batch carrying a given id |
| TableProperties.UpsertAllKeys | src/database/sqliteDatabase.ts:196-218 | after a batch save the table holds the old ids plus every saved id |
| TableProperties.UpsertAllKeepsFavorites | src/database/sqliteDatabase.ts:201-204 | a batch save never changes which events are favourites |
| TableProperties.UpsertAllUntouched | src/database/sqliteDatabase.ts:196-218 | rows not in the batch are untouched |
| TableProperties.UpsertAllLast | src/database/sqliteDatabase.ts:196-218 | for a repeated id the last occurrence wins, and reading it back gives the event with empty details |
| TableProperties.UpsertAllIdempotent | src/database/sqliteDatabase.ts:196-218 | saving the same batch twice is the same as saving it once, at the later time |
| TableProperties.UpsertAllIdempotentAt | src/database/sqliteDatabase.ts:196-218 | one id is present after one batch save iff after two, with the same row |
| TableProperties.ToggleTwice | src/database/sqliteDatabase.ts:265-289 | toggling twice restores the table |
| TableProperties.EvictIdempotent | src/database/sqliteDatabase.ts:311-322 | a second eviction at the same time changes nothing |
| TableProperties.EvictKeepsFavorites | src/database/sqliteDatabase.ts:316 | favourites are never evicted |
| TableProperties.Apply | src/database/sqliteDatabase.ts:192-334 | one store write: a batch save, a details save, a toggle (an unknown id changes nothing), an eviction or a clear |
| TableProperties.ApplyAll | src/database/sqliteDatabase.ts:192-334 | a sequence of store writes in order; `FavoriteSurvives` is stated over it |
| TableProperties.FavoriteSurvives | src/database/sqliteDatabase.ts:192-334 | no sequence of saves, detail saves and evictions changes whether an event is a favourite, unless it includes a toggle of that event or a clear-all |
| TableProperties.ListingDistinct | src/database/sqliteDatabase.ts:97-101 | a listing never repeats a row |
| TableProperties.PageEvents | src/database/sqliteDatabase.ts:95-118 | a cache page is the summaries of its slice of the listing |
| TableProperties.SummaryIds | src/database/sqliteDatabase.ts:107-118 | every listed event comes from a listed row |
| TableProperties.SliceOrdered | src/database/sqliteDatabase.ts:95-104 | a page of an ordered listing is ordered |
| TableProperties.SummariesOrdered | src/database/sqliteDatabase.ts:107-118 | reading rows into events keeps their order |
| TableProperties.CachePageOrdered | src/database/sqliteDatabase.ts:97-118 | every cache page is newest-first |
| TableProperties.FavoritesListOrderedAndComplete | src/database/sqliteDatabase.ts:163-189 | the favourites list is newest-first and contains every favourite |
| TableProperties.HasMoreIffNextPage | src/database/sqliteDatabase.ts:120 | `hasMore` holds iff the next page is non-empty |
| TableProperties.PagesShareNoEvent | src/database/sqliteDatabase.ts:95-104 | two different cache pages share no event |
| TableProperties.SummariesAppend | src/database/sqliteDatabase.ts:107-118 | reading two row lists one after the other is reading their concatenation |
| TableProperties.PagesUpTo | src/screens/dashboard/Dashboard.tsx:85-89 | the list the dashboard builds by loading cache pages 1..p one after another |
| TableProperties.PagesUpToArePrefix | src/database/sqliteDatabase.ts:95-118 | cache pages 1..p appended make the first p·10 rows of the listing |
| TableProperties.SummariesCut | src/database/sqliteDatabase.ts:107-118 | reading a listing in two cuts equals reading it at once |
| TableProperties.PageIdsCut | src/database/sqliteDatabase.ts:95-104 | page p's rows are the listing between (p-1)·10 and p·10 |
| TableProperties.OrderedHead | src/database/sqliteDatabase.ts:97-101 | an ordered arrangement of a set starts with its newest row |
| TableProperties.OrderedTail | src/database/sqliteDatabase.ts:97-101 | its tail orders the rest of the set |
| TableProperties.ListingUnique | src/database/sqliteDatabase.ts:97-101 | any ordered, duplicate-free arrangement of exactly the selected rows is the listing |
| SQLiteStore.SQLiteDatabase.constructor | src/database/sqliteDatabase.ts:7-9 | no connection yet, and the table is whatever the file holds |
| SQLiteStore.SQLiteDatabase.InitDatabase | src/database/sqliteDatabase.ts:11-55 | opening sets the connection on success, passes the failure on, and leaves the rows unchanged |
| SQLiteStore.SQLiteDatabase.CloseDatabase | src/database/sqliteDatabase.ts:57-63 | without a connection nothing happens; a successful close drops it; a failed one keeps it |
| SQLiteStore.SQLiteDatabase.SelectOrdered | src/database/sqliteDatabase.ts:97-101 | the loop emits the selected rows in `Listing` order |
| SQLiteStore.SQLiteDatabase.BuildEvents | src/database/sqliteDatabase.ts:107-118 | the loop yields the rows' summaries in row order |
| SQLiteStore.SQLiteDatabase.GetEvents | src/database/sqliteDatabase.ts:66-127 | not initialized → error; otherwise exactly `CachePage` |
| SQLiteStore.SQLiteDatabase.GetEventById | src/database/sqliteDatabase.ts:130-160 | not initialized → error; no row → null; else the row's details |
| SQLiteStore.SQLiteDatabase.GetFavoriteEvents | src/database/sqliteDatabase.ts:163-189 | not initialized → error; otherwise the favourites newest-first |
| SQLiteStore.SQLiteDatabase.IsFavorite | src/database/sqliteDatabase.ts:292-308 | not initialized → error; otherwise the row's flag (false when absent) |
| SQLiteStore.SQLiteDatabase.SaveEvents | src/database/sqliteDatabase.ts:192-224 | not initialized → error and no change; otherwise the table becomes `UpsertAll` |
| SQLiteStore.SQLiteDatabase.SaveEventDetails | src/database/sqliteDatabase.ts:227-262 | not initialized → error and no change; otherwise `UpsertDetails` |
| SQLiteStore.SQLiteDatabase.ToggleFavorite | src/database/sqliteDatabase.ts:265-289 | not initialized or unknown id → error and no change; otherwise the flag flips and the new value is returned |
| SQLiteStore.SQLiteDatabase.ClearOldCache | src/database/sqliteDatabase.ts:311-322 | not initialized → error; otherwise the table becomes `Evict` |
| SQLiteStore.SQLiteDatabase.ClearAllData | src/database/sqliteDatabase.ts:325-334 | not initialized → error; otherwise the table is empty |
| DatabaseFacade.DatabaseService.constructor | src/services/databaseService.ts:1-4 | the façade wraps the one store |
| DatabaseFacade.DatabaseService.GetEvents | src/services/databaseService.ts:6-17 | the store's page, or an empty page with no more when the store fails |
| DatabaseFacade.DatabaseService.GetEventById | src/services/databaseService.ts:20-27 | the store's details, or null on any failure |
| DatabaseFacade.DatabaseService.GetFavoriteEvents | src/services/databaseService.ts:30-37 | the store's favourites, or [] on failure |
| DatabaseFacade.DatabaseService.SaveEvents | src/services/databaseService.ts:40-46 | the store's upsert, and nothing on failure |
| DatabaseFacade.DatabaseService.SaveEventDetails | src/services/databaseService.ts:49-55 | the store's detail upsert, and nothing on failure |
| DatabaseFacade.DatabaseService.ToggleFavorite | src/services/databaseService.ts:58-65 | the new flag after a successful toggle, and false with no change on failure |
| DatabaseFacade.DatabaseService.IsFavorite | src/services/databaseService.ts:68-75 | the flag, and false on failure |
| DatabaseFacade.DatabaseService.ClearOldCache | src/services/databaseService.ts:78-84 | the store's eviction, and nothing on failure |
| DatabaseStartup.DatabaseInitService.constructor | src/services/databaseInit.ts:3-4 | starts uninitialized |
| DatabaseStartup.DatabaseInitService.InitializeDatabase | src/services/databaseInit.ts:6-25 | a second call does nothing; a failed open is passed on and leaves the service uninitialized; a successful one opens the store and evicts stale rows |
| DatabaseStartup.DatabaseInitService.CloseDatabase | src/services/databaseInit.ts:27-35 | a successful close uninitializes the service; a failed one leaves it as it was; the rows never change |
| MockApi.Deliver | src/services/mockApiService.ts:21-33 | the simulated call returns the data iff the network delivers, else "Network request failed" |
| MockApi.Filtered | src/services/mockApiService.ts:45-56 | the search filter, then the category filter; specified by `FilteredSelects`, `FilteredAppend`, `FilteredDistinct` |
| MockApi.GetEvents | src/services/mockApiService.ts:36-76 | the simulated `getEvents`; specified by `GetEventsPage` |
| MockApi.Narrow | src/services/mockApiService.ts:45-56 | a filter keeps exactly the events that pass it |
| MockApi.FilteredSelects | src/services/mockApiService.ts:45-56 | search and category filtering keep exactly the events whose lower-cased title includes the lower-cased query (when there is one) and whose category matches (unless 'All'), in catalogue order |
| MockApi.NarrowAppend | src/services/mockApiService.ts:45-56 | filtering distributes over concatenation |
| MockApi.FilteredAppend | src/services/mockApiService.ts:45-56 | so does the combined filter |
| MockApi.NarrowDistinct | src/services/mockApiService.ts:45-56 | filtering keeps a list duplicate-free |
| MockApi.FilteredDistinct | src/services/mockApiService.ts:45-56 | so does the combined filter |
| MockApi.GetEventsPage | src/services/mockApiService.ts:36-76 | delivered iff the network delivers; a page is the slice at (page-1)·10, at most ten events, with the filtered total, the page number and `hasMore` iff page·10 < total |
| MockApi.RemotePagesArePrefix | src/services/mockApiService.ts:59-62 | API pages 1..p appended make the first p·10 filtered events |
| MockApi.RemotePagesAccumulate | src/services/mockApiService.ts:59-62 | API pages 1..p appended are the filtered list's pages 1..p |
| MockApi.RemotePagesDisjoint | src/services/mockApiService.ts:59-62 | two different API pages share no event |
| MockApi.RemoteAndCacheSelectAlike | src/services/mockApiService.ts:45-56 | for a query without `%` or `_`, an event passes the API's filters iff its cached summary row passes the store's WHERE clause |
| MockApi.FileFor | src/services/mockApiService.ts:89-110 | exactly evt_001..evt_003 have a bundled detail file |
| MockApi.Find | src/services/mockApiService.ts:82-85 | `find` returns the first event with the id, or nothing iff none has it |
| MockApi.Generated | src/services/mockApiService.ts:101-109 | a generated record names the category's venue in the event's city, three speakers, capacity 50..249 and 10..59 seats left |
| MockApi.Merge | src/services/mockApiService.ts:112-115 | `{...base, ...detail}`: each event field comes from the detail file when present, else from the catalogue |
| MockApi.GetEventDetails | src/services/mockApiService.ts:79-127 | the simulated `getEventDetails`; specified by `GetEventDetailsResult` and `GeneratedDetails` |
| MockApi.GetEventDetailsResult | src/services/mockApiService.ts:79-126 | unknown id → "Event not found" before any network call; known id → delivered iff the network delivers, and then exactly `Merge` of the first catalogue event with that id and its bundled file, or the generated record when it has none |
| MockApi.GeneratedDetails | src/services/mockApiService.ts:99-110 | an event without a file keeps its catalogue fields and is never sold out |
| MockApi.GeneratedRemainingCanExceedCapacity | src/services/mockApiService.ts:107-108 | the generated seats left can exceed the capacity |
| MockApi.Reference | src/services/mockApiService.ts:153-155 | the reference is `EH-2025-` followed by the six-digit zero-padded draw, which parses back to the draw |
| MockApi.NatToStringLength | src/services/mockApiService.ts:153-155 | a number below 10^k has at most k digits |
| MockApi.MatchesCheckoutEmail | src/services/mockApiService.ts:142-143 | the API's email regex: `local@domain` with a dot strictly inside the domain, and no white space or second `@` anywhere; related to the form's pattern by `Utilities.EmailPatternPassesCheckout` |
| MockApi.Checkout | src/services/mockApiService.ts:129-173 | the simulated `checkout`; specified by `CheckoutOutcome` |
| MockApi.CheckoutOutcome | src/services/mockApiService.ts:129-167 | success iff the request is complete, the email matches, the quantity is 1..10 and the network delivers; each failure carries the first rule broken |
| MockApi.GetCategories | src/services/mockApiService.ts:170-172 | the five categories, in order, without repeats |
| MockApi.GetCategoriesComplete | src/services/mockApiService.ts:170-172 | every category is listed |
| MockApi.IsEventSoldOut | src/services/mockApiService.ts:175-184 | `isEventSoldOut`; related to availability by `SoldOutIffAvailabilitySoldOut` |
| MockApi.GetEventAvailability | src/services/mockApiService.ts:186-200 | `getEventAvailability`; related to the sold-out test by `SoldOutIffAvailabilitySoldOut` |
| MockApi.SoldOutIffAvailabilitySoldOut | src/services/mockApiService.ts:175-200 | given the same network outcome and draws, `isEventSoldOut` iff availability is 'sold_out'; a failed lookup reads as not sold out and 'available' (in the source the two calls roll independently) |
| Utilities.BlankEmailInvalid | src/utils/utility-functions/UntilityFunctions.ts:9-15 | a blank email is invalid |
| Utilities.MatchesEmailPattern | src/utils/utility-functions/UntilityFunctions.ts:11 | the form's email regex; related to the API's by `EmailPatternPassesCheckout` |
| Utilities.ValidateEmail | src/utils/utility-functions/UntilityFunctions.ts:9-15 | non-blank and matching the pattern; specified by `BlankEmailInvalid` and `ValidEmailPassesCheckout` |
| Utilities.ValidateNumbers | src/utils/utility-functions/UntilityFunctions.ts:18-24 | true iff the given `Number(value)` is not NaN |
| Utilities.SuffixesChars | src/utils/utility-functions/UntilityFunctions.ts:11 | the `(\.\w{2,3})+` tail holds only word characters and dots and ends in a word character |
| Utilities.WordAndJoinerAreEmailChars | src/services/mockApiService.ts:142 | word characters and joiners are neither whitespace nor `@` |
| Utilities.EmailPatternPassesCheckout | src/utils/utility-functions/UntilityFunctions.ts:11 | every string the form's pattern accepts passes the API's `^[^\s@]+@[^\s@]+\.[^\s@]+$` |
| Utilities.ValidEmailPassesCheckout | src/utils/utility-functions/UntilityFunctions.ts:9-15 | every email the form accepts passes the API's check once trimmed |
| Utilities.Capitalize | src/utils/utility-functions/UntilityFunctions.ts:26-29 | '' for undefined; otherwise the same length, first character upper-cased, rest unchanged |
| Utilities.CapitalizeIdempotent | src/utils/utility-functions/UntilityFunctions.ts:26-29 | capitalizing twice equals capitalizing once |
| Utilities.ContainsClass | src/utils/utility-functions/UntilityFunctions.ts:32-49 | a character-class test holds iff some character is in the class |
| Utilities.ContainsNumbers | src/utils/utility-functions/UntilityFunctions.ts:32-34 | true iff some character is a digit |
| Utilities.ContainsSpecialCharacter | src/utils/utility-functions/UntilityFunctions.ts:37-39 | true iff some character is one of the listed punctuation marks |
| Utilities.IsUppercaseIncluded | src/utils/utility-functions/UntilityFunctions.ts:42-44 | true iff some character is A–Z |
| Utilities.IsLowercaseIncluded | src/utils/utility-functions/UntilityFunctions.ts:47-49 | true iff some character is a–z |
| Utilities.ContainsClassAppend | src/utils/utility-functions/UntilityFunctions.ts:32-49 | a class occurs in a concatenation iff it occurs in one of the parts |
| Utilities.LowerCharClasses | src/utils/utility-functions/UntilityFunctions.ts:32-49 | lower-casing a character leaves no capital and keeps digits and punctuation |
| Utilities.LowerRemovesUppercase | src/utils/utility-functions/UntilityFunctions.ts:32-49 | a lower-cased string has no capital, and its digit and punctuation tests are unchanged |
| DashboardScreen.StatusesOf | src/screens/dashboard/Dashboard.tsx:43-53 | the loaded hearts have one entry per id, true iff the store marks that id a favourite |
| DashboardScreen.StatusesOfSnoc | src/screens/dashboard/Dashboard.tsx:46-48 | each loop step adds one id's flag |
| DashboardScreen.NextEvents | src/screens/dashboard/Dashboard.tsx:85-90 | page 1 or a refresh replaces the list; a later page appends to it |
| DashboardScreen.OfflinePagesAccumulate | src/screens/dashboard/Dashboard.tsx:96-116 | offline, pages 1..p loaded in turn show the first p·10 cached matches, newest first |
| DashboardScreen.OnlinePagesAccumulate | src/screens/dashboard/Dashboard.tsx:76-95 | online, pages 1..p loaded in turn show the first p·10 filtered catalogue events |
| DashboardScreen.NextCachePage | src/screens/dashboard/Dashboard.tsx:105-109 | offline, appending the cache's page p+1 to pages 1..p gives pages 1..p+1 |
| DashboardScreen.SyncedHearts | src/screens/dashboard/Dashboard.tsx:83-92 | hearts read after saving a page equal the favourites before the save |
| DashboardScreen.Dashboard.constructor | src/screens/dashboard/Dashboard.tsx:22-35 | the initial state: empty list, loading, page 1, more to come, no filters |
| DashboardScreen.Dashboard.LoadFavoriteStatuses | src/screens/dashboard/Dashboard.tsx:43-53 | the hearts gain exactly `StatusesOf` the given ids; nothing else changes |
| DashboardScreen.Dashboard.ReadStatuses | src/screens/dashboard/Dashboard.tsx:45-48 | the loop collects, for exactly the given ids, the store's favourite flag (false when the store is closed) |
| DashboardScreen.Dashboard.ShowDelivered | src/screens/dashboard/Dashboard.tsx:76-95 | a delivered page is cached, shown, and its hearts loaded; every heart equals the flag the row had before the save |
| DashboardScreen.Dashboard.ShowCached | src/screens/dashboard/Dashboard.tsx:96-116 | the cache's page (or an empty one) is shown with its hearts |
| DashboardScreen.Dashboard.ShowPage | src/screens/dashboard/Dashboard.tsx:85-95 | the rows replace the list for page 1 or a refresh and are appended otherwise; their hearts are added; `hasMore` and the page are taken over |
| DashboardScreen.Dashboard.BeginLoad | src/screens/dashboard/Dashboard.tsx:64-72 | the spinner for the kind of load goes on; a refresh or a first page clears the error; the list and filters are kept |
| DashboardScreen.Dashboard.LoadEvents | src/screens/dashboard/Dashboard.tsx:56-127 | spinners off; the error is cleared for page 1 or a refresh; online the page is cached, shown and hearted with the pre-save favourites; offline the cache page is shown |
| DashboardScreen.Dashboard.LoadMoreEvents | src/screens/dashboard/Dashboard.tsx:130-134 | nothing at all while loading or at the end; otherwise the new state of `loadEvents` for page currentPage+1: the store, list, `hasMore` and hearts from the API page or, failing that, the cache page (empty when the store is closed); offline the list grows to the next cached prefix |
| DashboardScreen.Dashboard.LoadNextPage | src/screens/dashboard/Dashboard.tsx:132 | `loadEvents(currentPage + 1, …)`: the page after the current one, appended, with the store, `hasMore`, hearts and error as `loadEvents` leaves them |
| DashboardScreen.Dashboard.RefreshEvents | src/screens/dashboard/Dashboard.tsx:137-139 | page 1 with the current filters replaces the list: the API page (cached, with its `hasMore` and hearts) or the cache's page 1, empty with `hasMore` false when the store is closed; the error is cleared |
| DashboardScreen.Dashboard.HandleSearch | src/screens/dashboard/Dashboard.tsx:142-148 | the query is set and page 1 for it replaces the list, with the store, `hasMore` and hearts as for a refresh |
| DashboardScreen.Dashboard.HandleCategorySelect | src/screens/dashboard/Dashboard.tsx:151-157 | the category is set and page 1 for it replaces the list, with the store, `hasMore` and hearts as for a refresh |
| DashboardScreen.Dashboard.HandleFavoriteToggle | src/screens/dashboard/Dashboard.tsx:160-170 | the store toggles and the heart shows the store's new flag; the list, page, `hasMore`, spinners, error and filters are unchanged |
| EventDetailsScreen.AvailabilityOf | src/screens/event-details/EventDetails.tsx:127-156 | a bare summary shows 'available'; details are sold out iff no seats remain, limited iff fewer than ten |
| EventDetailsScreen.CheckoutChoice | src/screens/event-details/EventDetails.tsx:87-100 | navigation carries what is shown |
| EventDetailsScreen.PriceOf | src/screens/event-details/EventDetails.tsx:87-100 | the `price` field of what is handed on, a summary's or the details' event |
| EventDetailsScreen.CheckoutRefusedIffSoldOut | src/screens/event-details/EventDetails.tsx:87-156 | checkout is refused exactly when the badge says sold out |
| EventDetailsScreen.RemoteBadgeMatchesApi | src/screens/event-details/EventDetails.tsx:127-156 | on the API's own answer, the badge and the refusal agree with `getEventAvailability` and `isEventSoldOut` |
| EventDetailsScreen.EventDetailsScreen.constructor | src/screens/event-details/EventDetails.tsx:29-33 | shows the route's summary, loading, not a favourite |
| EventDetailsScreen.EventDetailsScreen.LoadEventDetails | src/screens/event-details/EventDetails.tsx:35-70 | remote details are shown and cached; offline the cached row is shown; with neither, "Event not found" and the screen as it was; the heart reads the store |
| EventDetailsScreen.EventDetailsScreen.HandleFavoriteToggle | src/screens/event-details/EventDetails.tsx:72-85 | the store toggles and the heart is the store's new flag |
| FavoritesScreen.WithoutId | src/screens/favorites/Favorites.tsx:58-60 | the filter keeps exactly the events with another id |
| FavoritesScreen.WithoutIdKeepsOrder | src/screens/favorites/Favorites.tsx:58-60 | filtering keeps the newest-first order |
| FavoritesScreen.WithoutIdKeepsPairs | src/screens/favorites/Favorites.tsx:58-60 | filtering keeps any pairwise order relation of the list |
| FavoritesScreen.TailPairs | src/screens/favorites/Favorites.tsx:58-60 | a pairwise-ordered list stays so without its head |
| FavoritesScreen.HeadBeforeKept | src/screens/favorites/Favorites.tsx:58-60 | the head of a pairwise-ordered list precedes everything the filter keeps from its tail |
| FavoritesScreen.IdsWithoutId | src/screens/favorites/Favorites.tsx:58-60 | the ids left after filtering are the ids before it except the removed one |
| FavoritesScreen.FavoritesListInQueryOrder | src/database/sqliteDatabase.ts:167 | the favourites list is newest-first |
| FavoritesScreen.ToggleKeepsOrder | src/database/sqliteDatabase.ts:265-289 | toggling a flag does not change the newest-first order of any two rows |
| FavoritesScreen.FavoritesListIds | src/database/sqliteDatabase.ts:163-189 | the favourites list carries exactly the favourite ids |
| FavoritesScreen.FavoriteIdsAfterToggle | src/database/sqliteDatabase.ts:265-289 | un-favouriting an id removes exactly that id from the favourites |
| FavoritesScreen.SummariesAfterToggle | src/database/sqliteDatabase.ts:265-289 | toggling the flag changes no event summary |
| FavoritesScreen.ReadBack | src/database/sqliteDatabase.ts:163-189 | a list of summaries read from the table is the summaries of its own ids |
| FavoritesScreen.WithoutIdHoldsRemainingFavorites | src/screens/favorites/Favorites.tsx:54-64 | after un-favouriting, the filtered list holds exactly the remaining favourites |
| FavoritesScreen.WithoutIdOrderedAfterToggle | src/screens/favorites/Favorites.tsx:54-64 | and they are newest-first in the toggled table |
| FavoritesScreen.UnfavoriteMatchesReload | src/screens/favorites/Favorites.tsx:54-64 | dropping the un-favourited event gives exactly what a fresh favourites query would return |
| FavoritesScreen.WithoutIdAbsent | src/screens/favorites/Favorites.tsx:58-60 | filtering out an id no listed favourite has changes nothing |
| FavoritesScreen.FavoritesScreen.constructor | src/screens/favorites/Favorites.tsx:16-19 | empty list, loading, no error |
| FavoritesScreen.FavoritesScreen.LoadFavoriteEvents | src/screens/favorites/Favorites.tsx:21-42 | the list becomes the store's favourites (all favourites), spinners off, no error |
| FavoritesScreen.FavoritesScreen.RefreshFavoriteEvents | src/screens/favorites/Favorites.tsx:44-46 | the same, through the refresh path |
| FavoritesScreen.FavoritesScreen.HandleFavoriteToggle | src/screens/favorites/Favorites.tsx:54-64 | the store toggles; an un-favourited event leaves the list; a list in sync with the store stays in sync |
| CheckoutScreen.WithField | src/screens/checkout/Checkout.tsx:30-32 | one field is replaced, the others kept |
| CheckoutScreen.WithFieldLaws | src/screens/checkout/Checkout.tsx:30-32 | rewriting a field with its value is a no-op; the last write wins |
| CheckoutScreen.QuantityAccepted | src/screens/checkout/Checkout.tsx:112-119 | the quantity input's rule: `Number(value)` is not NaN and below 11, and the text has no '.' |
| CheckoutScreen.CheckForm | src/screens/checkout/Checkout.tsx:34-46 | the checks of `handleCheckout` in order: email, then trimmed name, then trimmed quantity; specified by `CheckFormVerdicts` |
| CheckoutScreen.CheckFormVerdicts | src/screens/checkout/Checkout.tsx:34-46 | each alert is raised exactly when its check is the first to fail; the form is submitted iff email, name and quantity all pass |
| CheckoutScreen.InitialFormRefused | src/screens/checkout/Checkout.tsx:24-28 | the form as it opens is refused for its email |
| CheckoutScreen.SubmittedEmailPassesApi | src/screens/checkout/Checkout.tsx:34-38 | a submitted email also passes the API's checkout check |
| CheckoutScreen.CalculateTotal | src/screens/checkout/Checkout.tsx:59-63 | 0 without an event; otherwise the handed-on price (summary or details) times the parsed quantity, and one ticket when `parseInt` gives NaN or 0 |
| CheckoutScreen.TotalForCount | src/screens/checkout/Checkout.tsx:59-63 | a typed count n ≥ 1 costs n times the handed-on price |
| CheckoutScreen.InitialTotal | src/screens/checkout/Checkout.tsx:24-28 | the opening quantity "1" shows one ticket at the handed-on price |
| CheckoutScreen.NegativeQuantityAccepted | src/screens/checkout/Checkout.tsx:112-119 | the input rule takes "-n" and the total is then -n times the handed-on price (exact; see the line on numbers under "Left out") |
| CheckoutScreen.NegatedHasNoDot | src/screens/checkout/Checkout.tsx:116 | "-" followed by decimal digits contains no '.' |
| CheckoutScreen.Checkout.constructor | src/screens/checkout/Checkout.tsx:21-28 | keeps the handed-on event (summary or details, or none); the opening form, not submitting, no timer, no reference |
| CheckoutScreen.Checkout.HandleInputChange | src/screens/checkout/Checkout.tsx:30-32 | the form becomes `WithField` of the old form |
| CheckoutScreen.Checkout.OnQuantityChange | src/screens/checkout/Checkout.tsx:112-119 | the value is taken iff it is a number below 11 without a '.' |
| CheckoutScreen.Checkout.HandleCheckout | src/screens/checkout/Checkout.tsx:34-57 | the verdict of the checks; on success submitting starts and one timer is pending; the form is untouched |
| CheckoutScreen.Checkout.StartSubmitting | src/screens/checkout/Checkout.tsx:47-52 | submitting starts and one more timer is pending; the form and reference are kept |
| CheckoutScreen.Checkout.FireTimer | src/screens/checkout/Checkout.tsx:49-52 | submitting ends and the success screen gets reference 123456 |
| CheckoutScreen.Checkout.Total | src/screens/checkout/Checkout.tsx:59-63 | no details → 0 |

## Left out

- SQL engine, JSON columns and `createTables`: the table is a map from id to row. The text columns, and the speakers decoded from JSON, are fields of the row. Once the store is open every SQL statement succeeds, so the rejected `executeSql` in `isFavorite` (src/database/sqliteDatabase.ts:304-307), the rollback of `saveEvents` (196-219) and the rethrow in `initDatabase` after `createTables` fails (13-22) never happen in the model. The façade's defaults come only from a closed store or a toggle of an unknown id.
- The tie-break by id in the row order: SQLite leaves rows with equal `cached_at` in an unspecified order. `Listing` fixes that order by id so that the order is a total function.
- Asynchrony and interleaving: each screen handler runs to completion, and the answers it awaits are parameters. These are the network outcome, the API's response and the open/close outcome.
- `Date.now()`: each call takes one `now`. The source reads the clock once per saved row, which gives the same rows when the clock does not move within a batch.
- `Math.random()`: delays are left out. The failure roll is the `delivered` flag, and the capacity, seats and reference digits are given draws.
- The bundled detail files for evt_001..evt_003: their contents are a parameter (`DetailFiles`). The generated description text is not modelled.
- `Number(value)` coercion: it is given as a `JsNumber`. `validateNumbers` and the quantity rule take it as input.
- Unicode case mapping: `toLowerCase`, `toUpperCase`, the `LIKE` case folding and `\w` are modelled on ASCII only.
- Rendering, styles, navigation transitions and alert texts: only the choice of alert or route is modelled.
- DashboardScreen.Dashboard.LoadEvents: the outer catch (`Failed to load events`) is unreachable, because the façade never throws. The error field is therefore only ever cleared.
- FavoritesScreen.FavoritesScreen.LoadFavoriteEvents: its catch is unreachable for the same reason.
- EventDetailsScreen.EventDetailsScreen.HandleFavoriteToggle: the alert in its catch (src/screens/event-details/EventDetails.tsx:78-84) is unreachable, because the façade never throws.
- EventDetailsScreen.EventDetailsScreen.LoadEventDetails: a missing `route.params` is not modelled; the route event is always given.
- The `filters.page` field of the dashboard state is never read by the source and is not modelled.
- CheckoutScreen.Checkout.HandleCheckout: the try/catch around `setTimeout` cannot fire and is left out. The pending timer is a counter that `FireTimer` consumes.
- MockApi.Checkout: the request's quantity is an integer, so a NaN or fractional quantity is not modelled; the source's range check (src/services/mockApiService.ts:148) would accept 2.5. The app never calls `checkout`.
- The checkout screen never calls the API's `checkout`. `SubmittedEmailPassesApi` relates the two email checks only.
- `clearAllData` has no caller and is modelled only as a store method.
- `SqlLike.UnderscoreQueryDiffers`, `MockApi.GeneratedRemainingCanExceedCapacity` and `CheckoutScreen.NegativeQuantityAccepted` record behaviour of the source as written. The model keeps that behaviour and does not correct it; for `NegativeQuantityAccepted` this holds as long as the total stays within the exactly representable doubles (see the next line).
- Numbers: prices, quantities, `parseInt` and `Number` results and totals are exact integers (or exact values of the given `JsNumber`). JavaScript computes them as IEEE-754 doubles and rounds beyond 2^53. So for a quantity such as "-99999999999999999999", `parseInt` (src/screens/checkout/Checkout.tsx:61) and the product `price * quantity` (Checkout.tsx:61-62) are rounded in the source, while `CheckoutScreen.CalculateTotal`, `CheckoutScreen.NegativeQuantityAccepted` and `Strings.ParseInt` give the exact values.
- CheckoutScreen.Checkout.Total: this states only the no-details case. The rest is `CalculateTotal`'s contract and the lemmas after it.
