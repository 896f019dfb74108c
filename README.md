# Drone catalog search: verified model of the filter, the store slices and the route guard

The application is a browser front end for a small catalog of unmanned
aircraft ("БпЛА") and their radio signals. Its own deterministic logic is
small and lives in three places, all modelled here:

* **The record filter.** The card grid (`GridBpLA`) and the search bar
  (`FilterSearchBar`) each carry the same six-record table and the same
  `filter` callback. The callback ANDs four criteria, and each criterion is a
  wildcard when its form field is empty:
  * a case-insensitive substring test on the name;
  * `parseInt` equality on the frequency;
  * a band-overlap test on the `"min-max"` range text, through `parseRange`;
  * exact equality on the signal type.

  The callback is identical in both components, so it is modelled once, in
  `RecordFilter`. Each component module applies it to its own copy of the
  table. `GridBpLA` adds the chip colour and the detail dialog's
  `open`/`selectedUAV` state. `FilterSearchBar` adds `clearFilters` and the
  "results found" count.
* **The two Redux slices.** `dataSlice` holds the search results, the admin
  list, `loading`, `error` and `searchQuery`. `authSlice` holds the
  signed-in user, `isAuthenticated`, `isAdmin`, `loading` and `error`. Their
  reducers assign fields in place. Each slice is therefore a class whose
  methods are the reducers and state the whole new state. The admin-list
  operations are backed by pure list functions with lemmas:
  * `FindIndexById` is the `findIndex` loop;
  * `ReplaceFirstById` specifies `updateAdminItem`;
  * `WithoutId` is `deleteAdminItem`'s `filter`.
* **The route guard** (`ProtectedRoute`). This is a pure, priority-ordered
  decision over `loading`, `isAuthenticated`, `isAdmin` and `requireAdmin`.

The JavaScript built-ins that the filter depends on are modelled in
`JsString`:
* `parseInt` without a radix: leading white space, an optional sign, a
  `0x` prefix, the longest digit run, otherwise `NaN`;
* `split` on a one-character separator;
* `includes`;
* a character-wise `toLowerCase`.

`NaN` is modelled as a value of the `Number` datatype. It propagates through
`Math.min`, `Math.max` and subtraction, and `NaN === 0` is false.

Behaviour that follows the code rather than the intent. One might expect a
malformed band never to match. In fact, when the range query (or a record's
range) splits into exactly two pieces but a piece does not parse (`"abc-def"`,
`"1000-"`), the overlap is `NaN`. The callback rejects only `overlap === 0`,
so such a record is kept (`src/component/GridBpLA.js:242-247`). The model
keeps this behaviour: `RecordFilter.NaNBoundAccepted` and
`RecordFilter.NaNQueriesKeepRecords` state it. Reversed bands are not
rejected by `parseRange`. Against a band whose bounds both parse, the
`max(0, …)` clamp turns a reversed band into overlap 0, so it does not match
(`RecordFilter.ReversedQueryRejected`). Against a band with a `NaN` bound the
overlap is `NaN` instead, and the record is kept, reversed or not
(`RecordFilter.NaNQueriesKeepRecords`). Touching bands give overlap 0 and are
rejected.

## Model

| member | source | states |
|---|---|---|
| `Selection.Filter` | src/component/GridBpLA.js:220-221 | `Array.prototype.filter`: the result is no longer than the input, and holds only input elements the callback keeps |
| `Selection.FilterSelectsKept` | src/component/GridBpLA.js:220-257 | the filter's result is the order-preserving subsequence made of exactly the positions the callback keeps |
| `Selection.FilterIdempotent` | src/component/GridBpLA.js:220-257 | filtering the result again with the same callback returns it unchanged |
| `JsString.StrictEquals` | src/component/GridBpLA.js:231 | `===` on numbers: true only for two equal non-`NaN` values, so anything compared with `NaN` is unequal |
| `JsString.MathMin` | src/component/GridBpLA.js:243-244 | `Math.min` of two numbers: `NaN` if either is `NaN`, otherwise the smaller |
| `JsString.MathMax` | src/component/GridBpLA.js:242-245 | `Math.max` of two numbers: `NaN` if either is `NaN`, otherwise the larger |
| `JsString.Minus` | src/component/GridBpLA.js:244-245 | subtraction on numbers: `NaN` if either operand is `NaN`, otherwise the exact difference |
| `JsString.ToLowerCase` | src/component/GridBpLA.js:225 | `toLowerCase` keeps the length and maps every character through one case mapping |
| `JsString.Includes` | src/component/GridBpLA.js:225 | `includes`: scans the positions of the text left to right and succeeds at the first one where the query is a prefix; fails once fewer characters remain than the query has |
| `JsString.Split` | src/component/GridBpLA.js:199 | `split("-")`: the pieces between separators, in order, empty pieces kept; the empty text gives one empty piece |
| `JsString.IncludesIffOccurs` | src/component/GridBpLA.js:225 | `includes` holds exactly when the query occurs as a contiguous substring at some position |
| `JsString.SplitLength` | src/component/GridBpLA.js:199-200 | `split("-")` gives one more piece than the text has hyphens, so "exactly two parts" means exactly one hyphen |
| `JsString.JoinSplit` | src/component/GridBpLA.js:199 | joining the pieces of `split` with the separator gives back the text |
| `JsString.SplitJoin` | src/component/GridBpLA.js:199 | splitting a join of separator-free pieces gives back those pieces |
| `JsString.SoleSeparator` | src/component/GridBpLA.js:199-200 | a text with a single hyphen at position i splits into the text before it and the text after it |
| `JsString.ParseInt` | src/component/GridBpLA.js:201-202 | `parseInt` without a radix: skip leading white space, an optional sign, a `0x`/`0X` prefix for base 16, then the longest run of digits; `NaN` when there is none (also used at line 231) |
| `JsString.ParseIntDecimalString` | src/component/GridBpLA.js:201-202 | `parseInt(String(n)) === n` for every integer n of the exact-integer model (magnitude below 2^53), negative ones included |
| `JsString.ParseIntIgnoresTrailing` | src/component/GridBpLA.js:231 | `parseInt` reads the leading decimal digits and ignores what follows them (`"1000abc"` and `"1000x"` are 1000); only after a lone `0` does an `x` start a hexadecimal number |
| `JsString.ParseIntNoDigits` | src/component/GridBpLA.js:231 | a text that starts with neither white space, a sign nor a digit parses to `NaN` (`""` and `"abc"` included) |
| `RecordFilter.ParseRange` | src/component/GridBpLA.js:197-204 | `null` for the empty text; a result exactly when the text has one hyphen; the result is both pieces through `parseInt`, with no check that min <= max |
| `RecordFilter.ParseRangeRejectsSamples` | src/component/GridBpLA.js:198-200 | `""`, `"abc"` and `"100-200-300"` all give `null` |
| `RecordFilter.ParseRangeReadsSample` | src/component/GridBpLA.js:199-203 | `"1000-1500"` gives min 1000 and max 1500 |
| `RecordFilter.ParseRangeBandText` | src/component/GridBpLA.js:197-204 | `parseRange` reads back any band of natural numbers written as `"<min>-<max>"` |
| `RecordFilter.Overlap` | src/component/GridBpLA.js:242-246 | the clamped overlap is `NaN` exactly when some bound is `NaN`; otherwise it is >= 0, and > 0 exactly when both bands have positive width and cross |
| `RecordFilter.RangeAccepts` | src/component/GridBpLA.js:236-248 | the range criterion: both texts must parse to bands, and the clamped overlap must not be `=== 0` (a `NaN` overlap passes) |
| `RecordFilter.Keep` | src/component/GridBpLA.js:221-256 | the callback: the name, frequency, range and signal-type checks in source order, each an early `false` when its field is non-empty and fails; then `true` |
| `RecordFilter.FilterUavs` | src/component/GridBpLA.js:220-221 | `uavDatabase.filter(callback)`: the records the callback keeps, in table order |
| `RecordFilter.KeepIsConjunction` | src/component/GridBpLA.js:221-256 | the callback keeps a record exactly when all four criteria hold, each one a wildcard when its field is empty |
| `RecordFilter.FilterUavsSelectsMatches` | src/component/GridBpLA.js:220-257 | the filtered list is the order-preserving subsequence of exactly the records matching all four criteria |
| `RecordFilter.FilterUavsIdempotent` | src/component/GridBpLA.js:220-257 | re-filtering the result with the same criteria returns it unchanged |
| `RecordFilter.FilterUavsCount` | src/component/FilterSearchBar.js:111-148 | the length of the filtered list is the number of records that match all four criteria |
| `RecordFilter.FilterNoCriteria` | src/component/FilterSearchBar.js:111-148 | with all four fields empty every record is kept |
| `RecordFilter.NaNFrequencyKeepsNothing` | src/component/GridBpLA.js:231-233 | a non-empty frequency query that parses to `NaN` keeps no record |
| `RecordFilter.FrequencyQueryOfNumber` | src/component/GridBpLA.js:231-233 | a frequency query written as the digits of n keeps exactly the records whose frequency is n |
| `RecordFilter.TouchingBandsRejected` | src/component/GridBpLA.js:236-248 | bands that only touch at one end (`"900-1500"` against `"1500-2000"`) are rejected |
| `RecordFilter.ReversedQueryRejected` | src/component/GridBpLA.js:236-248 | a reversed query band (min > max) is rejected against every well-formed band |
| `RecordFilter.DisjointBandsRejected` | src/component/GridBpLA.js:236-248 | a record band lying wholly after the query band is rejected |
| `RecordFilter.CrossingBandsAccepted` | src/component/GridBpLA.js:236-248 | two well-formed bands that cross with positive width are accepted |
| `RecordFilter.NaNBoundAccepted` | src/component/GridBpLA.js:242-247 | when both texts have one hyphen and some bound is `NaN`, the range criterion does not reject the record |
| `RecordFilter.NaNQueriesKeepRecords` | src/component/GridBpLA.js:236-248 | the queries `"abc-def"` and `"1000-"` keep every record whose band has one hyphen |
| `RecordFilter.LettersQueryBand` | src/component/GridBpLA.js:197-204 | `"abc-def"` has one hyphen, so `parseRange` gives a band, and both of its bounds are `NaN` |
| `RecordFilter.OpenQueryBand` | src/component/GridBpLA.js:197-204 | `"1000-"` has one hyphen, so `parseRange` gives a band, and its upper bound is `NaN` |
| `RecordFilter.MalformedQueryRejected` | src/component/GridBpLA.js:236-240 | a non-empty query with no hyphen or several hyphens rejects every record |
| `GridBpLA.UavDatabase` | src/component/GridBpLA.js:25-191 | the six records of the table, with the id, name, frequency, range text and signal type each carries |
| `GridBpLA.SignalTypeColor` | src/component/GridBpLA.js:206-208 | the error colour exactly for the fixed-frequency type, the primary colour for every other text |
| `GridBpLA.ErrorChipsInCatalog` | src/component/GridBpLA.js:25-191 | in the catalog, the error-coloured chips are exactly records 2, 4 and 5 |
| `GridBpLA.DetailDialog.constructor` | src/component/GridBpLA.js:194-195 | the dialog starts closed with nothing selected |
| `GridBpLA.DetailDialog.HandleCardClick` | src/component/GridBpLA.js:210-213 | selects the clicked record and opens the dialog; open iff a record is selected |
| `GridBpLA.DetailDialog.HandleClose` | src/component/GridBpLA.js:215-218 | closes the dialog and clears the selection; open iff a record is selected |
| `GridBpLA.Filtered` | src/component/GridBpLA.js:220-257 | the shown cards are catalog records that match all four criteria |
| `GridBpLA.SignalTypeOnly` | src/component/GridBpLA.js:251-253 | a query on the signal type alone keeps exactly the records of that type |
| `GridBpLA.FixedFrequencyCards` | src/component/GridBpLA.js:251-253 | the fixed-frequency signal type shows records 2, 4 and 5, in that order |
| `GridBpLA.SignalTypeOnCatalog` | src/component/GridBpLA.js:251-253 | over the catalog, the fixed-frequency type shows records 2, 4 and 5 and the frequency-hopping type records 1, 3 and 6 |
| `GridBpLA.SixVerdicts` | src/component/GridBpLA.js:220-257 | over six records whose callback verdicts are known, the shown ids are those of the kept records, in table order |
| `GridBpLA.NameQueryCards` | src/component/GridBpLA.js:223-228 | the name query `"dji"` shows records 1 and 3, matching case-insensitively |
| `GridBpLA.RangeQueryCards` | src/component/GridBpLA.js:236-248 | the range query `"1400-2100"` shows records 1, 4 and 6 |
| `FilterSearchBar.UavDatabase` | src/component/FilterSearchBar.js:16-83 | the search bar's own copy of the six records, with the same five fields |
| `FilterSearchBar.SameCatalogAsGrid` | src/component/FilterSearchBar.js:16-83 | both components' tables agree on id, name, frequency, range and signal type, in order |
| `FilterSearchBar.Filtered` | src/component/FilterSearchBar.js:111-148 | the found records are catalog records that match all four criteria |
| `FilterSearchBar.SameResultsAsGrid` | src/component/FilterSearchBar.js:111-148 | for every set of criteria the search bar finds the same records, ids and order as the card grid |
| `FilterSearchBar.ResultCount` | src/component/FilterSearchBar.js:221 | the displayed count is the number of catalog records matching all four criteria, at most 6 |
| `FilterSearchBar.SearchFields.constructor` | src/component/FilterSearchBar.js:85-94 | the fields hold the values the parent hands over |
| `FilterSearchBar.SearchFields.ClearFilters` | src/component/FilterSearchBar.js:95-100 | all four fields become `""`; the whole catalog is then found and the count is 6 |
| `FilterSearchBar.NoCriteriaFindsAll` | src/component/FilterSearchBar.js:111-148 | with all four fields empty the filter keeps every record of the catalog, in order, and the count is 6 |
| `FilterSearchBar.RangeQueryResults` | src/component/FilterSearchBar.js:127-139 | range `"1400-2100"` finds exactly records 1, 4 and 6, a count of 3 |
| `FilterSearchBar.FrequencyHoppingResults` | src/component/FilterSearchBar.js:141-144 | the frequency-hopping signal type finds exactly records 1, 3 and 6 |
| `FilterSearchBar.DjiAt900Results` | src/component/FilterSearchBar.js:114-124 | name `"dji"` with frequency `"900"` finds nothing, a count of 0 |
| `FilterSearchBar.FrequencyQuery900` | src/component/FilterSearchBar.js:122 | the frequency query `"900"` reads as 900 through `parseInt` |
| `DataSlice.FindIndexById` | src/store/slices/dataSlice.js:42-44 | `findIndex`: -1 exactly when no item has the id, otherwise the position of the first item that has it |
| `DataSlice.ReplaceFirstById` | src/store/slices/dataSlice.js:41-48 | `updateAdminItem` on the list: the first item with the payload's id is replaced by the payload; the length never changes |
| `DataSlice.ReplaceFirstAt` | src/store/slices/dataSlice.js:41-48 | when the first item with the id is at position i, the update overwrites exactly position i |
| `DataSlice.ReplaceFirstNoMatch` | src/store/slices/dataSlice.js:45-47 | when no item has the id, the update leaves the list unchanged |
| `DataSlice.ReplaceFirstIdempotent` | src/store/slices/dataSlice.js:41-48 | applying the same update twice is applying it once |
| `DataSlice.WithoutId` | src/store/slices/dataSlice.js:49-53 | `deleteAdminItem` on the list: the items whose id differs, in their order |
| `DataSlice.WithoutIdContents` | src/store/slices/dataSlice.js:49-53 | after a delete no item has the id, and an item is kept exactly when it was there with another id |
| `DataSlice.WithoutIdKeepsOrder` | src/store/slices/dataSlice.js:49-53 | the kept items are the order-preserving subsequence of exactly the items with another id |
| `DataSlice.WithoutIdAbsentAndTwice` | src/store/slices/dataSlice.js:49-53 | deleting an absent id changes nothing; deleting the same id twice is deleting it once |
| `DataSlice.DataStore.constructor` | src/store/slices/dataSlice.js:3-9 | empty lists, not loading, no error, the query is the empty object `{}` |
| `DataSlice.DataStore.SetSearchResults` | src/store/slices/dataSlice.js:15-19 | stores the results, loading false, error null; admin list and query unchanged |
| `DataSlice.DataStore.SetAdminData` | src/store/slices/dataSlice.js:20-24 | stores the admin list, loading false, error null; results and query unchanged |
| `DataSlice.DataStore.SetSearchQuery` | src/store/slices/dataSlice.js:25-27 | the query becomes the dispatched search text (or object) and nothing else changes |
| `DataSlice.DataStore.SetLoading` | src/store/slices/dataSlice.js:28-30 | changes only the loading flag |
| `DataSlice.DataStore.SetError` | src/store/slices/dataSlice.js:31-34 | sets the error and forces loading false; lists and query unchanged |
| `DataSlice.DataStore.ClearError` | src/store/slices/dataSlice.js:35-37 | changes only the error, to null |
| `DataSlice.DataStore.AddAdminItem` | src/store/slices/dataSlice.js:38-40 | appends the item: length grows by one and every earlier item is unchanged; no other field changes |
| `DataSlice.DataStore.UpdateAdminItem` | src/store/slices/dataSlice.js:41-48 | replaces the first item with the payload's id, or nothing; the length is kept; no other field changes |
| `DataSlice.DataStore.DeleteAdminItem` | src/store/slices/dataSlice.js:49-53 | keeps exactly the items with another id, in order; none with the id remains; no other field changes |
| `AuthSlice.ConsistentFlags` | src/store/slices/authSlice.js:3-35 | a consistent session has `isAuthenticated` iff a user is stored, and `isAdmin` implies `isAuthenticated` |
| `AuthSlice.AuthStore.constructor` | src/store/slices/authSlice.js:3-9 | no user, not authenticated, not admin, loading, no error; consistent |
| `AuthSlice.AuthStore.SetUser` | src/store/slices/authSlice.js:15-21 | stores the user; authenticated iff there is one; admin iff its role is `admin`; loading false, error null; consistent |
| `AuthSlice.AuthStore.SetLoading` | src/store/slices/authSlice.js:22-24 | changes only the loading flag; stays consistent |
| `AuthSlice.AuthStore.SetError` | src/store/slices/authSlice.js:25-28 | sets the error and forces loading false; user and both flags unchanged; stays consistent |
| `AuthSlice.AuthStore.Logout` | src/store/slices/authSlice.js:29-35 | no user, both flags false, loading false, error null, whatever the old state, so a second logout changes nothing |
| `ProtectedRoute.Guard` | src/components/ProtectedRoute.js:6-32 | spinner while loading whatever the other flags; else login redirect when not authenticated, even for admin routes; else search redirect for a non-admin on an admin route; the page iff not loading, authenticated, and admin or not required |
| `ProtectedRoute.GuardDefault` | src/components/ProtectedRoute.js:6 | with `requireAdmin` at its default the page is rendered iff not loading and authenticated, and nobody is sent to `/search` |
| `ProtectedRoute.GrantedOnlyToItsUsers` | src/components/ProtectedRoute.js:24-32 | over a consistent auth state the page is rendered only for a stored user, and an admin route only for a user whose role is `admin` |
| `ProtectedRoute.AdminsReachAdminRoutes` | src/components/ProtectedRoute.js:28-32 | once loading is over, a consistent store whose user is an admin is let through to an admin route |

## Left out

- Rendering: JSX, MUI styling, the cards, the dialog body, the chips and the spinner's layout. Only what the guard and the components decide is modelled.
- `useMemo` caching and React's state batching. The filter is a plain function of the criteria, and each state setter is a field assignment.
- Immer drafts and the Redux dispatch machinery. Each reducer is a method that assigns the slice's fields directly.
- The search bar's four `onChange` handlers. Each one passes a typed value to a setter, which is a plain field assignment.
- Record fields used only for display (`image`, `description`, `specs`, heights, speeds, per-channel signals). The filter never reads them, so `Uav` has only id, name, frequency, range and signal type.
- The database service, the auth listener, the sign-in page, the admin and search pages, the router and the store setup. They are asynchronous I/O against the hosted backend, or declarative wiring, and are not part of this model. The pages only dispatch the reducers modelled here.
- JsString.ParseInt: models exact integers. A digit run longer than about 15 digits would round to the nearest double in JavaScript. `-0` is folded into 0.
- JsString.DecimalString: `String(n)` is modelled as plain decimal digits for every integer. In JavaScript that holds only while n is exact (below 2^53 in magnitude) and below 1e21, where `String` switches to exponent form (`parseInt("1e+21")` is 1); so `JsString.ParseIntDecimalString` is a statement about the exact-integer model.
- JsString.ToLowerCase: maps only ASCII, Latin-1 and the basic Cyrillic block. That covers every name in the tables, but not full Unicode case mapping.
- RecordFilter.Uav: the frequency is an integer. The tables hold only integers, and the query side goes through `parseInt`.
- DataSlice.Item: the fields other than `id` are an uninterpreted map, because no reducer reads them. `searchQuery` is either the empty object `{}` the slice starts with or the search text the search page dispatches; no other payload is sent.
- AuthSlice.User: keeps uid, email and role. `displayName` is carried by the source but read by nothing modelled.
