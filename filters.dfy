/**
  The sidebar's selection and the filter it drives (app.py lines 460-515):
  the date widget's value turned into an ordered date range, the payment
  options offered, and the three inclusive filters applied in sequence.
 */
module Filters {
  import opened Wrappers
  import opened Trips
  import opened Counting

  // ---------------------------------------------------------------------
  // Dates

  /** What the date widget hands back: one date, or a tuple or list of dates. */
  datatype DateInput = OneDate(date: int) | DateList(dates: seq<int>)

  /** Earliest pickup date of the table, none for an empty table. */
  function MinDate(rows: seq<Trip>): (r: Option<int>)
    ensures r.None? <==> rows == []
    ensures r.Some? ==> forall i :: 0 <= i < |rows| ==> r.value <= rows[i].pickupDate
    ensures r.Some? ==> exists i :: 0 <= i < |rows| && rows[i].pickupDate == r.value
  {
    if rows == [] then None
    else match MinDate(rows[1..])
      case None => Some(rows[0].pickupDate)
      case Some(m) => Some(if rows[0].pickupDate <= m then rows[0].pickupDate else m)
  }

  /** Latest pickup date of the table, none for an empty table. */
  function MaxDate(rows: seq<Trip>): (r: Option<int>)
    ensures r.None? <==> rows == []
    ensures r.Some? ==> forall i :: 0 <= i < |rows| ==> rows[i].pickupDate <= r.value
    ensures r.Some? ==> exists i :: 0 <= i < |rows| && rows[i].pickupDate == r.value
  {
    if rows == [] then None
    else match MaxDate(rows[1..])
      case None => Some(rows[0].pickupDate)
      case Some(m) => Some(if rows[0].pickupDate >= m then rows[0].pickupDate else m)
  }

  /**
    `(start_date, end_date)` from the widget's value: a single date or a
    one-element list gives a one-day range, a two-element list its two
    dates, any other length the dataset's first day; an inverted pair is
    swapped.
   */
  function NormalizeDates(v: DateInput, minDate: int): (r: (int, int))
    ensures r.0 <= r.1
    ensures v.OneDate? ==> r == (v.date, v.date)
    ensures v.DateList? && |v.dates| == 1 ==> r == (v.dates[0], v.dates[0])
    ensures v.DateList? && |v.dates| == 2 ==> multiset{r.0, r.1} == multiset{v.dates[0], v.dates[1]}
    ensures v.DateList? && |v.dates| != 1 && |v.dates| != 2 ==> r == (minDate, minDate)
  {
    var (s, e) := match v
      case OneDate(d) => (d, d)
      case DateList(ds) =>
        if |ds| == 2 then (ds[0], ds[1])
        else if |ds| == 1 then (ds[0], ds[0])
        else (minDate, minDate);
    if s > e then (e, s) else (s, e)
  }

  /** A pair and its reverse select the same range. */
  lemma NormalizeDatesSwapInvariant(a: int, b: int, minDate: int)
    ensures NormalizeDates(DateList([a, b]), minDate) == NormalizeDates(DateList([b, a]), minDate)
    ensures NormalizeDates(DateList([a, b]), minDate) == (if a <= b then (a, b) else (b, a))
  {
  }

  // ---------------------------------------------------------------------
  // Payment options

  /** The non-null payment codes of the rows, in row order. */
  function PaymentCodes(rows: seq<Trip>): (codes: seq<int>)
    ensures forall c :: c in codes <==> exists i :: 0 <= i < |rows| && rows[i].paymentType == Some(c)
  {
    if rows == [] then []
    else
      var rest := PaymentCodes(rows[1..]);
      assert forall i :: 1 <= i < |rows| ==> rows[i] == rows[1..][i - 1];
      match rows[0].paymentType
      case Some(c) => [c] + rest
      case None => rest
  }

  /** `pay_opts`: the distinct non-null payment codes of the table, ascending. */
  function PayOptions(rows: seq<Trip>): (opts: seq<int>)
    ensures StrictlyAscending(opts)
    ensures forall c :: c in opts <==> exists i :: 0 <= i < |rows| && rows[i].paymentType == Some(c)
  {
    SortedDistinct(PaymentCodes(rows))
  }

  // ---------------------------------------------------------------------
  // Filtering

  /** The filter parameters: date range, hour range and the selected payment codes. */
  datatype Selection = Selection(startDate: int, endDate: int, hourMin: int, hourMax: int, payments: seq<int>)

  /** `is_between` on the pickup date (both ends included). */
  function DateFilter(sel: Selection): Trip -> bool
  {
    (t: Trip) => sel.startDate <= t.pickupDate <= sel.endDate
  }

  /** `is_between` on the pickup hour (both ends included). */
  function HourFilter(sel: Selection): Trip -> bool
  {
    (t: Trip) => sel.hourMin <= t.pickupHour <= sel.hourMax
  }

  /** `is_in` on the payment code; a null code is never selected. */
  function PaymentFilter(sel: Selection): Trip -> bool
  {
    (t: Trip) => t.paymentType.Some? && t.paymentType.value in sel.payments
  }

  /** The three conditions together. */
  predicate Matches(t: Trip, sel: Selection)
  {
    DateFilter(sel)(t) && HourFilter(sel)(t) && PaymentFilter(sel)(t)
  }

  function SelectionFilter(sel: Selection): Trip -> bool
  {
    (t: Trip) => Matches(t, sel)
  }

  /** `DataFrame.filter`: the rows satisfying `p`, in their order. */
  function KeepIf<T>(s: seq<T>, p: T -> bool): (r: seq<T>)
    ensures |r| <= |s|
    ensures forall i :: 0 <= i < |r| ==> p(r[i])
  {
    if s == [] then []
    else KeepIf(s[..|s| - 1], p) + (if p(s[|s| - 1]) then [s[|s| - 1]] else [])
  }

  /** The filter keeps every passing row as often as it occurs, and nothing else. */
  lemma {:induction false} KeepIfCounts<T(!new)>(s: seq<T>, p: T -> bool)
    ensures forall x :: multiset(KeepIf(s, p))[x] == if p(x) then multiset(s)[x] else 0
  {
    if s != [] {
      assert s == s[..|s| - 1] + [s[|s| - 1]];
      KeepIfCounts(s[..|s| - 1], p);
    }
  }

  lemma {:induction false} KeepIfAppend<T(!new)>(a: seq<T>, b: seq<T>, p: T -> bool)
    ensures KeepIf(a + b, p) == KeepIf(a, p) + KeepIf(b, p)
  {
    if b == [] {
      assert a + b == a;
    } else {
      var b', x := b[..|b| - 1], b[|b| - 1];
      var tail := if p(x) then [x] else [];
      assert (a + b)[..|a + b| - 1] == a + b' && (a + b)[|a + b| - 1] == x;
      assert KeepIf(a + b, p) == KeepIf(a + b', p) + tail;
      assert KeepIf(b, p) == KeepIf(b', p) + tail;
      KeepIfAppend(a, b', p);
    }
  }

  /** Filtering by `p` and then by `q` is filtering by a predicate equal to their conjunction. */
  lemma {:induction false} KeepIfTwice<T(!new)>(s: seq<T>, p: T -> bool, q: T -> bool, pq: T -> bool)
    requires forall x :: pq(x) == (p(x) && q(x))
    ensures KeepIf(KeepIf(s, p), q) == KeepIf(s, pq)
  {
    if s != [] {
      var s', x := s[..|s| - 1], s[|s| - 1];
      KeepIfTwice(s', p, q, pq);
      KeepIfAppend(KeepIf(s', p), if p(x) then [x] else [], q);
      if p(x) {
        assert KeepIf([x], q) == KeepIf([], q) + (if q(x) then [x] else []);
      }
    }
  }

  /** A filter every row passes keeps the table as it is. */
  lemma {:induction false} KeepIfAll<T(!new)>(s: seq<T>, p: T -> bool)
    requires forall i :: 0 <= i < |s| ==> p(s[i])
    ensures KeepIf(s, p) == s
  {
    if s != [] {
      KeepIfAll(s[..|s| - 1], p);
      assert s == s[..|s| - 1] + [s[|s| - 1]];
    }
  }

  /** `idx` lists, in increasing order, exactly the positions of `s` whose rows pass `p`, and `r` holds those rows. */
  ghost predicate KeptPositions<T>(idx: seq<int>, r: seq<T>, s: seq<T>, p: T -> bool)
  {
    && |idx| == |r|
    && (forall j :: 0 <= j < |idx| ==> 0 <= idx[j] < |s| && r[j] == s[idx[j]])
    && (forall j, k :: 0 <= j < k < |idx| ==> idx[j] < idx[k])
    && (forall i :: 0 <= i < |s| ==> (p(s[i]) <==> i in idx))
  }

  /** `r` is the subsequence of `s` made of the rows passing `p`. */
  ghost predicate SelectsInOrder<T>(r: seq<T>, s: seq<T>, p: T -> bool)
  {
    exists idx :: KeptPositions(idx, r, s, p)
  }

  lemma {:induction false} KeepIfSelectsInOrder<T(!new)>(s: seq<T>, p: T -> bool)
    ensures SelectsInOrder(KeepIf(s, p), s, p)
  {
    if s == [] {
      assert KeptPositions([], [], s, p);
    } else {
      var s', x := s[..|s| - 1], s[|s| - 1];
      assert s == s' + [x];
      KeepIfSelectsInOrder(s', p);
      var idx :| KeptPositions(idx, KeepIf(s', p), s', p);
      if p(x) {
        PassingRowIsKept(idx, s', x, p);
      } else {
        FailingRowIsDropped(idx, s', x, p);
      }
    }
  }

  lemma {:induction false} PassingRowIsKept<T>(idx: seq<int>, s: seq<T>, x: T, p: T -> bool)
    requires KeptPositions(idx, KeepIf(s, p), s, p) && p(x)
    ensures KeptPositions(idx + [|s|], KeepIf(s + [x], p), s + [x], p)
  {
    var s', r, idx' := s + [x], KeepIf(s + [x], p), idx + [|s|];
    assert s'[..|s'| - 1] == s;
    assert r == KeepIf(s, p) + [x];
    forall j | 0 <= j < |idx'| ensures 0 <= idx'[j] < |s'| && r[j] == s'[idx'[j]] {
      if j < |idx| {
        assert idx'[j] == idx[j] && r[j] == KeepIf(s, p)[j];
      }
    }
    forall j, k | 0 <= j < k < |idx'| ensures idx'[j] < idx'[k] {
      if k == |idx| {
        assert idx'[j] == idx[j] < |s|;
      }
    }
    assert |s| !in idx;
    forall i | 0 <= i < |s'| ensures p(s'[i]) <==> i in idx' {
      assert i in idx' <==> i in idx || i == |s|;
    }
  }

  lemma {:induction false} FailingRowIsDropped<T>(idx: seq<int>, s: seq<T>, x: T, p: T -> bool)
    requires KeptPositions(idx, KeepIf(s, p), s, p) && !p(x)
    ensures KeptPositions(idx, KeepIf(s + [x], p), s + [x], p)
  {
    var s', r := s + [x], KeepIf(s + [x], p);
    assert s'[..|s'| - 1] == s;
    assert r == KeepIf(s, p);
    forall i | 0 <= i < |s'| ensures p(s'[i]) <==> i in idx {
      assert |s| !in idx;
    }
  }

  /** The filter chain of app.py lines 507-511, keeping the table's columns. */
  function ApplyFilters(t: Table, sel: Selection): (r: Table)
    ensures r.hasPickupNames == t.hasPickupNames && r.hasDropoffNames == t.hasDropoffNames
    ensures forall i :: 0 <= i < |r.rows| ==> Matches(r.rows[i], sel)
    ensures forall x :: multiset(r.rows)[x] == if Matches(x, sel) then multiset(t.rows)[x] else 0
  {
    var rows := KeepIf(KeepIf(KeepIf(t.rows, DateFilter(sel)), HourFilter(sel)), PaymentFilter(sel));
    FiltersAreOneConjunction(t.rows, sel);
    KeepIfCounts(t.rows, SelectionFilter(sel));
    Table(rows, t.hasPickupNames, t.hasDropoffNames)
  }

  /** The three filters in sequence are the one conjunctive filter. */
  lemma FiltersAreOneConjunction(rows: seq<Trip>, sel: Selection)
    ensures KeepIf(KeepIf(KeepIf(rows, DateFilter(sel)), HourFilter(sel)), PaymentFilter(sel))
            == KeepIf(rows, SelectionFilter(sel))
  {
    var dateHour := (t: Trip) => DateFilter(sel)(t) && HourFilter(sel)(t);
    KeepIfTwice(rows, DateFilter(sel), HourFilter(sel), dateHour);
    KeepIfTwice(rows, dateHour, PaymentFilter(sel), SelectionFilter(sel));
  }

  /** The filtered rows are the matching rows of the table, in table order, none dropped. */
  lemma FilteredInOrder(t: Table, sel: Selection)
    ensures SelectsInOrder(ApplyFilters(t, sel).rows, t.rows, SelectionFilter(sel))
  {
    FiltersAreOneConjunction(t.rows, sel);
    KeepIfSelectsInOrder(t.rows, SelectionFilter(sel));
  }

  /**
    The widget defaults (the whole date range, hours 0 to 23, every payment
    option) keep the whole table when its hours lie in 0..23 and no payment
    code is null.
   */
  lemma DefaultSelectionKeepsAll(t: Table)
    requires t.rows != []
    requires forall i :: 0 <= i < |t.rows| ==> 0 <= t.rows[i].pickupHour <= 23 && t.rows[i].paymentType.Some?
    ensures ApplyFilters(t, Selection(MinDate(t.rows).value, MaxDate(t.rows).value, 0, 23, PayOptions(t.rows))) == t
  {
    var sel := Selection(MinDate(t.rows).value, MaxDate(t.rows).value, 0, 23, PayOptions(t.rows));
    forall i | 0 <= i < |t.rows| ensures Matches(t.rows[i], sel) {
      DefaultSelectionMatches(t, i);
    }
    FiltersAreOneConjunction(t.rows, sel);
    KeepIfAll(t.rows, SelectionFilter(sel));
  }

  /** One row of such a table matches the default selection. */
  lemma DefaultSelectionMatches(t: Table, i: nat)
    requires i < |t.rows|
    requires 0 <= t.rows[i].pickupHour <= 23 && t.rows[i].paymentType.Some?
    ensures Matches(t.rows[i], Selection(MinDate(t.rows).value, MaxDate(t.rows).value, 0, 23, PayOptions(t.rows)))
  {
    assert t.rows[i].paymentType == Some(t.rows[i].paymentType.value);
  }

  /** A row whose payment code is null is dropped whatever the selection. */
  lemma NullPaymentNeverSelected(t: Table, sel: Selection, x: Trip)
    requires x.paymentType.None?
    ensures x !in ApplyFilters(t, sel).rows
  {
    assert multiset(ApplyFilters(t, sel).rows)[x] == 0;
  }
}
