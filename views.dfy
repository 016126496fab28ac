/**
  The aggregations drawn from the filtered table (app.py lines 544-627):
  top pickup locations, the hours of the fare-by-hour line, the payment
  breakdown and the day-by-hour heatmap counts.
 */
module Views {
  import opened Wrappers
  import opened Trips
  import opened Counting
  import opened Labels

  // ---------------------------------------------------------------------
  // Top pickup locations

  /** How many pickup groups the chart keeps (`.head(10)`). */
  const TopPickupCount: nat := 10

  /** The top-pickups group key: the `pickup_zone` name when the table has it, else `PULocationID`. */
  datatype PickupKey = ZoneName(name: Option<string>) | LocationId(id: int)

  function PickupKeys(t: Table): seq<PickupKey>
  {
    seq(|t.rows|, i requires 0 <= i < |t.rows| =>
                    if t.hasPickupNames then ZoneName(t.rows[i].pickupZone) else LocationId(t.rows[i].puLocationId))
  }

  /** Number of trips of the table in pickup group `k`. */
  function TripsAt(t: Table, k: PickupKey): (n: nat)
    ensures n <= |t.rows|
  {
    Count(PickupKeys(t), k)
  }

  /**
    `top10_pickups`: at most ten pickup groups, largest first, each with
    the number of trips it holds.
   */
  function TopPickups(t: Table): (top: seq<(PickupKey, nat)>)
    ensures |top| <= TopPickupCount
    ensures DistinctKeys(top) && NonIncreasing(top)
    ensures forall i :: 0 <= i < |top| ==> top[i].1 == TripsAt(t, top[i].0) > 0
  {
    Top(PickupKeys(t), TopPickupCount)
  }

  /** A pickup group with trips is left out only when ten groups are kept, none smaller than it. */
  lemma TopPickupsLeaveOutSmaller(t: Table, k: PickupKey)
    requires TripsAt(t, k) > 0 && k !in KeysOf(TopPickups(t))
    ensures |TopPickups(t)| == TopPickupCount
    ensures TripsAt(t, k) <= TopPickups(t)[TopPickupCount - 1].1
  {
    TopKeepsLargest(PickupKeys(t), TopPickupCount, k);
  }

  // ---------------------------------------------------------------------
  // Average fare by hour (keys only)

  /** The `pickup_hour` groups of `avg_fare_by_hour`, in ascending order. */
  function FareHours(t: Table): (hours: seq<int>)
    ensures StrictlyAscending(hours)
    ensures forall h :: h in hours <==> exists i :: 0 <= i < |t.rows| && t.rows[i].pickupHour == h
  {
    var column := seq(|t.rows|, i requires 0 <= i < |t.rows| => t.rows[i].pickupHour);
    assert forall i :: 0 <= i < |t.rows| ==> column[i] == t.rows[i].pickupHour;
    SortedDistinct(column)
  }

  // ---------------------------------------------------------------------
  // Payment breakdown

  /** One bar of the payment chart; a null code gets a null label (`map_elements` skips nulls). */
  datatype PaymentBar = PaymentBar(code: Option<int>, tripCount: nat, paymentLabel: Option<string>)

  function PaymentColumn(t: Table): seq<Option<int>>
  {
    seq(|t.rows|, i requires 0 <= i < |t.rows| => t.rows[i].paymentType)
  }

  /** The label of a bar: its code's label, or null for the null code (`map_elements` skips nulls). */
  function LabelFor(code: Option<int>): Option<string>
  {
    match code
    case Some(c) => Some(PaymentLabel(c))
    case None => None
  }

  function BarTotal(bars: seq<PaymentBar>): nat
  {
    if bars == [] then 0 else bars[0].tripCount + BarTotal(bars[1..])
  }

  function Bars(r: seq<(Option<int>, nat)>): (bars: seq<PaymentBar>)
    ensures |bars| == |r|
    ensures forall i :: 0 <= i < |r| ==> bars[i] == PaymentBar(r[i].0, r[i].1, LabelFor(r[i].0))
    ensures BarTotal(bars) == SumCounts(r)
  {
    if r == [] then [] else [PaymentBar(r[0].0, r[0].1, LabelFor(r[0].0))] + Bars(r[1..])
  }

  /** The bars drawn from a ranking of the payment codes `codes`. */
  ghost predicate BarsRank(codes: seq<Option<int>>, bars: seq<PaymentBar>)
  {
    && (forall i :: 0 <= i < |bars| ==> bars[i].code in codes && bars[i].tripCount == Count(codes, bars[i].code))
    && (forall i :: 0 <= i < |bars| ==> bars[i].paymentLabel == LabelFor(bars[i].code))
    && (forall i, j :: 0 <= i < j < |bars| ==> bars[i].code != bars[j].code)
    && (forall i, j :: 0 <= i < j < |bars| ==> bars[i].tripCount >= bars[j].tripCount)
    && (forall c :: c in codes ==> exists i :: 0 <= i < |bars| && bars[i].code == c)
    && BarTotal(bars) == |codes|
  }

  lemma {:induction false} BarsOfRanking(codes: seq<Option<int>>, r: seq<(Option<int>, nat)>)
    requires IsRanking(codes, r) && SumCounts(r) == |codes|
    ensures BarsRank(codes, Bars(r))
  {
    var bars := Bars(r);
    forall c | c in codes ensures exists i :: 0 <= i < |bars| && bars[i].code == c {
      var i :| 0 <= i < |r| && KeysOf(r)[i] == c;
      assert bars[i].code == c;
    }
  }

  /**
    `payment_breakdown`: one bar per distinct payment code of the table,
    each with its number of trips and its label, largest first; the bars
    add up to the table's row count.
   */
  function PaymentBreakdown(t: Table): (bars: seq<PaymentBar>)
    ensures BarsRank(PaymentColumn(t), bars)
    ensures |PaymentColumn(t)| == |t.rows|
  {
    BarsOfRanking(PaymentColumn(t), Rank(PaymentColumn(t)));
    Bars(Rank(PaymentColumn(t)))
  }

  /** Distinct bars carry distinct labels. */
  lemma PaymentLabelsDistinct(t: Table, i: nat, j: nat)
    requires i < j < |PaymentBreakdown(t)|
    requires PaymentBreakdown(t)[i].code.Some? && PaymentBreakdown(t)[j].code.Some?
    ensures PaymentBreakdown(t)[i].paymentLabel != PaymentBreakdown(t)[j].paymentLabel
  {
    var bars := PaymentBreakdown(t);
    if bars[i].paymentLabel == bars[j].paymentLabel {
      PaymentLabelInjective(bars[i].code.value, bars[j].code.value);
    }
  }

  // ---------------------------------------------------------------------
  // Day-by-hour heatmap

  function DayHourColumn(t: Table): seq<(string, int)>
  {
    seq(|t.rows|, i requires 0 <= i < |t.rows| => (t.rows[i].pickupDayOfWeek, t.rows[i].pickupHour))
  }

  /**
    `heat`: one cell per (day of week, hour) pair present, with its number
    of trips; the cells add up to the table's row count.
   */
  function DayHourCounts(t: Table): (cells: seq<((string, int), nat)>)
    ensures IsGrouping(DayHourColumn(t), cells)
    ensures SumCounts(cells) == |t.rows|
  {
    Group(DayHourColumn(t))
  }

  /** Three trips paid by card, cash and card give a card bar of 2 above a cash bar of 1. */
  lemma ThreeTripBreakdown(a: Trip, b: Trip, c: Trip)
    requires a.paymentType == Some(1) && b.paymentType == Some(2) && c.paymentType == Some(1)
    ensures PaymentBreakdown(Table([a, b, c], false, false)) ==
      [PaymentBar(Some(1), 2, Some("1 - Credit card")), PaymentBar(Some(2), 1, Some("2 - Cash"))]
  {
    var t := Table([a, b, c], false, false);
    assert PaymentColumn(t) == [Some(1), Some(2), Some(1)];
    CardCashCardRanking();
    assert PaymentBreakdown(t) == Bars([(Some(1), 2), (Some(2), 1)]);
    CardCashBars();
  }

  lemma CardCashBars()
    ensures Bars([(Some(1), 2), (Some(2), 1)]) ==
      [PaymentBar(Some(1), 2, Some("1 - Credit card")), PaymentBar(Some(2), 1, Some("2 - Cash"))]
  {
    CardAndCashLabels();
  }

  lemma CardCashCardRanking()
    ensures Rank([Some(1), Some(2), Some(1)]) == [(Some(1), 2), (Some(2), 1)]
  {
    CardCashCardGroups();
    var g: seq<(Option<int>, nat)> := [(Some(1), 2), (Some(2), 1)];
    assert g[..1] == [(Some(1), 2)] && |g[..1][..0]| == 0;
    assert SortByCount(g[..1]) == [(Some(1), 2)];
    assert SortByCount(g) == InsertByCount((Some(2), 1), [(Some(1), 2)]);
  }

  lemma CardCashCardGroups()
    ensures Group([Some(1), Some(2), Some(1)]) == [(Some(1), 2), (Some(2), 1)]
  {
    var column := [Some(1), Some(2), Some(1)];
    assert column[..2] == [Some(1), Some(2)] && column[..2][..1] == [Some(1)];
    assert Group([Some(1)]) == [(Some(1), 1)];
    assert Group(column[..2]) == [(Some(1), 1), (Some(2), 1)];
  }

  lemma CardAndCashLabels()
    ensures LabelFor(Some(1)) == Some("1 - Credit card") && LabelFor(Some(2)) == Some("2 - Cash")
  {
    assert PaymentLabel(1) == "1 - Credit card" && PaymentLabel(2) == "2 - Cash";
  }
}
