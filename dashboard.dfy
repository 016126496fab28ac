/**
  One run of the dashboard script (app.py lines 428-627) with the widgets'
  values as inputs: load and enrich the table, turn the sidebar into a
  selection, filter, stop on an empty result, and otherwise compute every
  chart's data from the filtered rows.
 */
module Dashboard {
  import opened Wrappers
  import opened Trips
  import opened Counting
  import opened Payload
  import opened ZoneNames
  import opened Filters
  import opened Views

  /** Why a run ends before the charts. */
  datatype StopReason =
    | TripsNotParquet(tripsExcerpt: seq<bv8>)
    | TripsLoadFailed
    | ZonesNotParquet(zonesExcerpt: seq<bv8>)
    | EmptyDataset
    | NoMatchingTrips

  datatype Outcome<T> = Continue(value: T) | Stopped(reason: StopReason)

  /**
    Lines 428-439: a trip load that fails in any way stops the run; the
    enrichment step degrades to the unenriched table when the zone fetch
    raises, but a zone body that is not Parquet stops the run (the stop
    is not an `Exception`, so the `except` does not catch it).
   */
  function PrepareTable(trips: Fetched<Table>, zones: Fetched<seq<Zone>>): (r: Outcome<Table>)
    ensures trips.NotParquet? ==> r == Stopped(TripsNotParquet(trips.excerpt))
    ensures trips.FetchFailed? ==> r == Stopped(TripsLoadFailed)
    ensures trips.Parsed? && zones.FetchFailed? ==> r == Continue(trips.value)
    ensures trips.Parsed? && zones.Parsed? ==> r == Continue(EnsureZoneNames(trips.value, zones).value)
    ensures trips.Parsed? && zones.NotParquet? ==>
      r == if trips.value.hasPickupNames && trips.value.hasDropoffNames
           then Continue(trips.value) else Stopped(ZonesNotParquet(zones.excerpt))
    ensures r.Continue? ==> trips.Parsed? && |r.value.rows| >= |trips.value.rows|
  {
    match trips
    case NotParquet(e) => Stopped(TripsNotParquet(e))
    case FetchFailed => Stopped(TripsLoadFailed)
    case Parsed(df) =>
      match EnsureZoneNames(df, zones)
      case Parsed(enriched) => Continue(enriched)
      case NotParquet(e) => Stopped(ZonesNotParquet(e))
      case FetchFailed => Continue(df)
  }

  /** The data behind the metrics row and the four charts modelled here. */
  datatype Charts = Charts(
    totalTrips: nat,
    topPickups: seq<(PickupKey, nat)>,
    fareHours: seq<int>,
    payments: seq<PaymentBar>,
    heatmap: seq<((string, int), nat)>)

  function ChartsOf(filtered: Table): Charts
  {
    Charts(|filtered.rows|, TopPickups(filtered), FareHours(filtered),
           PaymentBreakdown(filtered), DayHourCounts(filtered))
  }

  /** The selection the sidebar produces (lines 460-504). */
  function SelectionOf(df: Table, dates: DateInput, hourMin: int, hourMax: int, selectedPay: seq<int>): Selection
    requires df.rows != []
  {
    var (start, end) := NormalizeDates(dates, MinDate(df.rows).value);
    Selection(start, end, hourMin, hourMax, selectedPay)
  }

  /**
    One run. An empty table stops at the dataset's minimum date (its
    `.date()` fails on a null); an empty filter result stops before any
    chart; otherwise every chart is computed from the filtered rows.
   */
  function Render(trips: Fetched<Table>, zones: Fetched<seq<Zone>>, dates: DateInput,
                  hourMin: int, hourMax: int, selectedPay: seq<int>): (r: Outcome<Charts>)
    ensures PrepareTable(trips, zones).Stopped? ==> r == Stopped(PrepareTable(trips, zones).reason)
    ensures PrepareTable(trips, zones).Continue? && PrepareTable(trips, zones).value.rows == [] ==>
      r == Stopped(EmptyDataset)
    ensures r.Continue? ==> PrepareTable(trips, zones).Continue? && PrepareTable(trips, zones).value.rows != []
    ensures r.Continue? ==> r.value.totalTrips > 0
    ensures r.Continue? ==> BarTotal(r.value.payments) == r.value.totalTrips
    ensures r.Continue? ==> SumCounts(r.value.heatmap) == r.value.totalTrips
    ensures r.Continue? ==> 0 < |r.value.topPickups| <= TopPickupCount
    ensures r.Continue? ==> 0 < |r.value.payments| && 0 < |r.value.fareHours|
  {
    match PrepareTable(trips, zones)
    case Stopped(why) => Stopped(why)
    case Continue(df) =>
      if df.rows == [] then Stopped(EmptyDataset)
      else
        var filtered := ApplyFilters(df, SelectionOf(df, dates, hourMin, hourMax, selectedPay));
        if filtered.rows == [] then Stopped(NoMatchingTrips)
        else ChartsAreNonEmpty(filtered); Continue(ChartsOf(filtered))
  }

  lemma ChartsAreNonEmpty(filtered: Table)
    requires filtered.rows != []
    ensures 0 < |TopPickups(filtered)| && 0 < |PaymentBreakdown(filtered)| && 0 < |FareHours(filtered)|
  {
    var k := PickupKeys(filtered)[0];
    if |TopPickups(filtered)| == 0 {
      TopPickupsLeaveOutSmaller(filtered, k);
    }
    assert PaymentColumn(filtered)[0] in PaymentColumn(filtered);
    assert filtered.rows[0].pickupHour in FareHours(filtered);
  }

  /**
    The empty check short-circuits exactly when no row matches, and a run
    that goes on draws its charts from the filtered rows.
   */
  lemma RenderStopsExactlyOnEmptyFilter(trips: Fetched<Table>, zones: Fetched<seq<Zone>>, dates: DateInput,
                                          hourMin: int, hourMax: int, selectedPay: seq<int>, df: Table)
    requires PrepareTable(trips, zones) == Continue(df) && df.rows != []
    ensures var filtered := ApplyFilters(df, SelectionOf(df, dates, hourMin, hourMax, selectedPay));
      && (Render(trips, zones, dates, hourMin, hourMax, selectedPay) == Stopped(NoMatchingTrips)
          <==> filtered.rows == [])
      && (filtered.rows != [] ==>
          Render(trips, zones, dates, hourMin, hourMax, selectedPay) == Continue(ChartsOf(filtered)))
  {
  }

  /** Reversing the two dates picked in the widget changes nothing in the run. */
  lemma RenderIgnoresDateOrder(trips: Fetched<Table>, zones: Fetched<seq<Zone>>, a: int, b: int,
                                 hourMin: int, hourMax: int, selectedPay: seq<int>)
    ensures Render(trips, zones, DateList([a, b]), hourMin, hourMax, selectedPay)
         == Render(trips, zones, DateList([b, a]), hourMin, hourMax, selectedPay)
  {
    match PrepareTable(trips, zones)
    case Stopped(_) =>
    case Continue(df) =>
      if df.rows != [] {
        NormalizeDatesSwapInvariant(a, b, MinDate(df.rows).value);
        assert SelectionOf(df, DateList([a, b]), hourMin, hourMax, selectedPay)
            == SelectionOf(df, DateList([b, a]), hourMin, hourMax, selectedPay);
      }
  }

  /** Only trips from the chosen hour are counted when the hour range is a single hour. */
  lemma SingleHourRange(df: Table, dates: DateInput, h: int, selectedPay: seq<int>)
    requires df.rows != []
    ensures var filtered := ApplyFilters(df, SelectionOf(df, dates, h, h, selectedPay));
      forall i :: 0 <= i < |filtered.rows| ==> filtered.rows[i].pickupHour == h
  {
  }
}
