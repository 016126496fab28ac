# NYC taxi dashboard core, modelled in Dafny

This project models the data path of the Streamlit NYC taxi dashboard
(`app.py`, lines 331-627), the part that runs after the user has clicked
"Load data":

- **Loading** (`load_cleaned_trips`, `load_zones`). A downloaded body is
  accepted only when it starts with the Parquet magic bytes `PAR1`.
  Otherwise the run stops and shows the first 500 characters of the body.
  The trip file is read restricted to the ten needed columns.
- **Zone enrichment** (`ensure_zone_names`). If the table already holds
  both zone columns it is returned as it is. Otherwise the zone table is
  left-joined twice: on the pickup location, then on the drop-off location.
- **Run control**. A trip load that fails stops the run. An enrichment
  that raises an ordinary error only warns, and the unenriched table is
  kept. An empty result after filtering stops the run before any chart.
- **Sidebar selection**. The date widget's value is normalised to an
  ordered (start, end) pair. The hour range comes from the slider. The
  payment options are the sorted distinct non-null payment codes.
- **Filtering**. Three row filters are applied one after another: the
  pickup date in [start, end], the pickup hour in [min, max], and the
  payment code among the selected codes.
- **Chart data**. The model covers the total trip count and four
  aggregations of the filtered rows:
  - the ten pickup groups with the most trips;
  - the hours of the fare-by-hour line;
  - the payment breakdown, with labels such as `1 - Credit card`;
  - the (day of week, hour) heatmap counts.

The modules follow the script's structure:

- `Trips` holds the row and table types, `Wrappers` an `Option`.
- `Payload` covers the loading steps, `ZoneNames` the enrichment.
- `Filters` covers the sidebar and the filters.
- `Counting` holds `group_by(...).agg(pl.len())`, the descending sort and
  `head`, written once and shared.
- `Labels` covers the payment labels, including Python's `str` of an
  integer.
- `Views` covers the chart data.
- `Dashboard` composes one whole run.

The script is a chain of pure dataframe expressions, so the model is
written with datatypes, functions and lemmas only.

## Model

| member | source | states |
|---|---|---|
| Payload.Sniff | app.py:361-365 | A body is read exactly when its first four bytes are `P`,`A`,`R`,`1`; the value then is the reader's result on the whole body. Otherwise the outcome is a rejection carrying the first min(length, 500) units of the body. Sniffing itself never reports a fetch failure. |
| Payload.StartsWithMagic | app.py:361 | `startswith(b"PAR1")` holds exactly when the body has at least four bytes and they are `0x50 0x41 0x52 0x31`. |
| Payload.MagicPrefixIsRead | app.py:362-367 | Any body made of `PAR1` followed by arbitrary bytes is handed to the reader unchanged. |
| Payload.RejectedBodyIsNotRead | app.py:362-365 | A body without the magic prefix is rejected, and the outcome is the same whatever the reader, so a rejected body is never read. |
| Payload.LoadCleanedTrips | app.py:339-367 | The trip file is read with exactly the ten needed columns. The loaded table has no zone-name columns. A body is rejected exactly when it lacks the magic prefix. |
| Payload.LoadZones | app.py:370-381 | The zone file is accepted exactly when it starts with `PAR1`, and is then read in full. |
| ZoneNames.EnsureZoneNames | app.py:384-410 | A table with both zone columns comes back unchanged. Otherwise: a non-Parquet zone body propagates as a stop; a raised fetch error propagates; a zone table yields a table with both name columns and no fewer rows. |
| ZoneNames.EnsureZoneNamesIdempotent | app.py:386-387 | Enriching an already enriched table returns it unchanged, whatever the zone file would be. |
| ZoneNames.EnsureZoneNamesRowwise | app.py:389-410 | With unique `LocationID`s, the two joins keep the row count and order. Row i becomes the lookup of its pickup, then its drop-off, location. |
| ZoneNames.EnrichedNames | app.py:391-410 | With unique ids, on a table without name columns, row i gets the zone and borough of its `PULocationID` and of its `DOLocationID` (null when absent). Every other column of the row is unchanged. |
| ZoneNames.LeftJoin | app.py:408-409 | The result has at least as many rows as the input. |
| ZoneNames.JoinRowFrom | app.py:408-409 | One trip joins to as many rows as there are zone rows carrying its location id, or to a single row when none does. Each row is the trip with the names of a matching zone row, or with null names when none matches. When several zone rows match, the names on the joined rows are exactly the matching rows' names, each as often as it occurs. A table that already holds the names keeps the trip unchanged. |
| ZoneNames.JoinRow | app.py:408-409 | One trip joins to one row per matching zone row, and at least one row. Only this side's name columns may change. A table that already holds the names keeps the trip unchanged on every row. |
| ZoneNames.LeftJoinSize | app.py:408-409 | The left join has exactly as many rows as the sum, over the trips, of their number of matching zone rows, counting at least one per trip. A duplicated `LocationID` therefore fans a trip out. |
| ZoneNames.LeftJoinRowsFromTrips | app.py:408-409 | Every row of the join is made of some input trip, as described for `JoinRowFrom`. |
| ZoneNames.LeftJoinKeepsEveryTrip | app.py:408-409 | No trip is lost: every input trip has at least one row of the join made of it. |
| ZoneNames.DuplicateIdFansOut | app.py:408-409 | Two zone rows with id 7 turn a trip picked up at 7 into two rows, one per zone name. |
| ZoneNames.LeftJoinUnique | app.py:408-409 | With unique `LocationID`s, a left join has the same row count and order, and row i is row i with that side's names looked up. |
| ZoneNames.JoinRowUnique | app.py:408-409 | With unique ids, the join of one trip yields exactly one row: the trip with that side's looked-up names. |
| ZoneNames.UniqueIdMatchesOnce | app.py:408-409 | With unique ids, the zone rows matching an id are exactly the one found by lookup, or none. |
| ZoneNames.LookupZone | app.py:408-409 | A found zone row is in the zone table with the requested id. No row is found only when no row has that id. |
| ZoneNames.ZonesWithId | app.py:408-409 | The zone rows matched by a join key are the zone table's rows with that `LocationID`, each as often as it occurs in the table, and no other rows. |
| Dashboard.PrepareTable | app.py:428-439 | A non-Parquet or failed trip load stops the run. A failed zone fetch keeps the unenriched table. A non-Parquet zone body stops the run unless enrichment was skipped. Otherwise the run continues with the enriched table. A table that goes on holds at least the loaded rows. |
| Filters.MinDate | app.py:460 | The minimum pickup date is absent only for an empty table. Otherwise it is one of the rows' dates and no row is earlier. |
| Filters.MaxDate | app.py:461 | The maximum pickup date is absent only for an empty table. Otherwise it is one of the rows' dates and no row is later. |
| Filters.NormalizeDates | app.py:474-486 | The pair is ordered. A single date, or a one-date list, gives that date twice. A two-date list gives the same two dates in order. Any other list length falls back to the dataset's minimum date twice. |
| Filters.NormalizeDatesSwapInvariant | app.py:484-486 | Picking the two dates in either order yields the same range. |
| Filters.PayOptions | app.py:491-497 | The options are strictly ascending, and a code is an option exactly when some trip has that non-null payment code. |
| Counting.SortedDistinct | app.py:491-497 | `sorted(unique(...))`: the result is strictly ascending and holds exactly the input's values. |
| Filters.ApplyFilters | app.py:507-511 | The three filters keep the table's columns. Every kept row matches the date, hour and payment filters. Each row occurs in the result exactly as often as in the input if it matches, else never. |
| Filters.FiltersAreOneConjunction | app.py:507-511 | Three filters applied one after another equal one filter by their conjunction. |
| Filters.FilteredInOrder | app.py:507-511 | The filtered rows are a subsequence of the input rows, in input order. |
| Filters.KeepIf | app.py:508-510 | `DataFrame.filter` keeps no more rows than it is given, and every row it keeps passes the predicate. |
| Filters.KeepIfSelectsInOrder | app.py:507-511 | Filtering keeps exactly the passing rows, at increasing positions of the input. |
| Filters.KeepIfCounts | app.py:507-511 | Filtering keeps each passing row with its multiplicity and removes each failing row. |
| Filters.KeepIfTwice | app.py:507-511 | Filtering by p then by q equals filtering by "p and q". |
| Filters.KeepIfAll | app.py:507-511 | A filter every row passes returns the rows unchanged. |
| Filters.KeepIfAppend | app.py:507-511 | Filtering distributes over concatenation. |
| Filters.DefaultSelectionKeepsAll | app.py:460-511 | With the widgets left at their defaults (full date range, hours 0-23, all options), a non-empty table whose hours all lie in 0..23 and whose payment codes are all non-null comes through the filters unchanged. |
| Filters.NullPaymentNeverSelected | app.py:510 | A trip with a null payment code never survives the payment filter, whatever is selected. |
| Labels.PaymentLabel | app.py:605 | A code 1-5 is labelled with its single digit, ` - ` and its entry in the payment table. Any other code is labelled with its decimal text and ` - Other`. |
| Labels.PaymentLabelKnown | app.py:331-337 | Codes 1-5 are labelled `1 - Credit card`, `2 - Cash`, `3 - No charge`, `4 - Dispute` and `5 - Unknown`. |
| Labels.PaymentLabelOther | app.py:605 | Any code c outside 1-5 is labelled `<c> - Other`. |
| Labels.PaymentLabelInjective | app.py:605 | Different payment codes always get different labels. |
| Labels.IntToStringRoundTrip | app.py:605 | The decimal text of an integer (sign for negatives only) reads back as that integer. |
| Labels.NatToStringRoundTrip | app.py:605 | The decimal digits of a natural number read back as that number. |
| Labels.NatToString | app.py:605 | The decimal text of a natural number is all digits and has no leading zero. |
| Labels.IntToString | app.py:605 | The decimal text of an integer has a `-` exactly at its front, exactly when it is negative. |
| Counting.Count | app.py:547-548 | An element's count never exceeds the length, and is positive exactly when the element occurs. |
| Counting.Group | app.py:547-548 | `group_by(...).agg(pl.len())`: one entry per distinct key present, each with its exact number of occurrences; the counts add up to the number of rows. |
| Counting.Bump | app.py:547-548 | Adding one row to a grouping keeps its keys, or appends the new key; the total grows by one. |
| Counting.BumpCountAt | app.py:547-548 | With distinct keys, adding one row increments only its key's count, or gives a new key the count 1. |
| Counting.BumpExtendsGrouping | app.py:547-548 | A grouping of s bumped with x is a grouping of s + [x]. |
| Counting.InsertByCount | app.py:549 | Inserting a group into the sorted list adds exactly that group: the result is a permutation of the list plus the group. |
| Counting.InsertByCountOrdered | app.py:549 | Inserting one group into a count-descending list keeps it count-descending, and its total grows by the group's count. |
| Counting.SortByCount | app.py:549 | Sorting by count is a permutation of the groups. |
| Counting.SortByCountOrdered | app.py:549 | After sorting, the counts are non-increasing. |
| Counting.ReorderedGrouping | app.py:549 | A permutation of a grouping is still a grouping with the same total. |
| Counting.SumCountsReordered | app.py:549 | Reordering the groups does not change the sum of their counts. |
| Counting.Rank | app.py:547-549 | Group then sort descending: a grouping of the rows whose counts are non-increasing and add up to the row count. |
| Counting.Top | app.py:547-550 | `head(n)` of the ranking: at most n distinct keys, largest first, each occurring in the rows with its exact count. |
| Counting.TopKeepsLargest | app.py:547-550 | A key present in the rows but not in the top n appears only when n keys were kept, the last of which has at least its count. |
| Views.TopPickups | app.py:545-551 | At most ten pickup groups (zone name when the table has names, else `PULocationID`), distinct and largest first. Each carries its exact, positive trip count. |
| Views.TopPickupsLeaveOutSmaller | app.py:545-551 | A pickup group with trips is missing from the chart only if ten groups are shown and the tenth has at least as many trips. |
| Views.FareHours | app.py:566-570 | The hour axis of the fare-by-hour line is strictly ascending and holds exactly the hours present in the filtered trips. |
| Views.PaymentBreakdown | app.py:599-609 | One bar per distinct payment code present (null included), each with its exact trip count, largest first. A non-null code's bar carries that code's label; the null code's bar has a null label, since `map_elements` skips nulls. The bars add up to the trip count. |
| Views.PaymentLabelsDistinct | app.py:602-607 | Two bars for different non-null codes never share a label. |
| Views.Bars | app.py:602-607 | Labelling keeps each group's code and count, attaches its code's label, and keeps the total. |
| Views.BarsOfRanking | app.py:599-609 | Labelling a ranking of the payment column yields bars that rank it: exact counts; each code's label, null for the null code; distinct codes; descending; every code covered; and a total equal to the row count. |
| Views.ThreeTripBreakdown | app.py:599-609 | Trips paid by card, cash, card give exactly two bars: `1 - Credit card` with 2 trips above `2 - Cash` with 1. |
| Views.DayHourCounts | app.py:624-627 | One heatmap cell per (day of week, hour) pair present, with its exact trip count; the cells add up to the trip count. |
| Dashboard.Render | app.py:428-627 | A load that stops (a non-Parquet or failed trip load, or a non-Parquet zone body) ends the run with that same reason. A loaded table with no rows ends it before any chart. A run reaches the charts only after a load that goes on with a non-empty table. Such a run has a positive trip total. The payment bars and the heatmap cells both add up to that total. At most ten, and at least one, pickup groups are shown. The payment chart and the hour axis are non-empty. |
| Dashboard.RenderStopsExactlyOnEmptyFilter | app.py:513-515 | After a successful load of a non-empty table, the run stops with "No trips match" exactly when the filters keep no row. Otherwise it draws its charts from the filtered rows. |
| Dashboard.RenderIgnoresDateOrder | app.py:484-508 | Reversing the two picked dates leaves the whole run unchanged. |
| Dashboard.SingleHourRange | app.py:509 | With the hour slider on a single hour h, every filtered trip was picked up in hour h. |
| Dashboard.ChartsAreNonEmpty | app.py:545-609 | A non-empty filtered table yields a non-empty top-pickups chart, payment chart and hour axis. |

## Behaviour worth noting

- **Duplicate location ids.** A duplicate `LocationID` in the zone table
  duplicates trip rows. The join is `how="left"` and nothing checks that
  the ids are unique (app.py:408-409). `ZoneNames.LeftJoinSize` and
  `ZoneNames.DuplicateIdFansOut` state this fan-out. The row-by-row
  properties require unique ids.
- **Non-Parquet zone body.** A zone body without `PAR1` stops the whole
  run. The stop raised inside `load_zones` (app.py:379) is not an
  `Exception`, so the `except Exception` at app.py:437 does not catch it
  (`Dashboard.PrepareTable`).
- **Null payment codes.** With every widget at its default, rows with a
  null payment code are still dropped. The payment options leave nulls
  out (app.py:495), and `is_in` never keeps a null (app.py:510)
  (`Filters.NullPaymentNeverSelected`). The default selection keeps the
  whole table only when no code is null (`Filters.DefaultSelectionKeepsAll`).
- **Top-ten ties.** polars leaves the order among groups with equal counts
  unspecified. The model orders them by first appearance, and every
  contract about the ranking holds for any tie order.

## Left out

- HTTP fetching, its headers, timeout and `raise_for_status`. A fetch that raises is the `FetchFailed` outcome.
- Parquet decoding. The reader is a parameter of `Payload.LoadCleanedTrips` and `Payload.LoadZones`.
- `st.cache_data` caching, because it does not change any value.
- The page layout, tabs, error and warning texts, and the "Load data" gate (lines 415-423).
- The plotly figures.
- The float metrics: average fare, revenue, distance and duration. The `avg_fare` values of the fare-by-hour chart are left out too; only its hour axis is modelled.
- The trip-distance histogram.
- The Monday-to-Sunday ordering of the heatmap.
- The commented-out date widget (lines 446-458).
- Payload.Sniff: the excerpt is taken from the body's bytes. The code takes the first 500 characters of the decoded text (`r.text`), and text decoding is not modelled.
- Trips.Trip: pickup timestamps are modelled as day numbers, which is all the date filter compares.
- Trips.Trip: null timestamps and null hours are not modelled. Only the payment code may be null.
- ZoneNames.JoinRow: when only one side's names are already present, polars adds `_right`-suffixed copies of the joined columns. The model keeps the existing columns and omits those copies.
- Views.PaymentBreakdown: the `Int32` cast is not modelled. Codes outside the 32-bit range, which would make the cast fail, are treated like any other code.
- Counting.Rank: polars leaves the order of groups with equal counts unspecified. The model fixes one such order (first appearance), and its contracts do not depend on it.
