/**
  Zone enrichment (app.py `ensure_zone_names`): attach pickup and drop-off
  zone and borough names to every trip by two left joins on the location
  id, unless the table already holds both zone columns.
 */
module ZoneNames {
  import opened Wrappers
  import opened Trips
  import opened Payload

  datatype Side = Pickup | Dropoff

  /** The join key of a trip on one side (`PULocationID` or `DOLocationID`). */
  function LocationOf(t: Trip, side: Side): int
  {
    if side == Pickup then t.puLocationId else t.doLocationId
  }

  /** `t` with one side's zone and borough columns set. */
  function WithNames(t: Trip, side: Side, zone: Option<string>, borough: Option<string>): Trip
  {
    if side == Pickup then t.(pickupZone := zone, pickupBorough := borough)
    else t.(dropoffZone := zone, dropoffBorough := borough)
  }

  /** The zone rows whose `LocationID` is `id`, in table order. */
  function ZonesWithId(zones: seq<Zone>, id: int): (m: seq<Zone>)
    ensures |m| <= |zones|
    ensures forall z :: z in m ==> z in zones && z.locationId == id
    ensures forall z :: z in zones && z.locationId == id ==> z in m
    ensures forall z :: multiset(m)[z] == if z.locationId == id then multiset(zones)[z] else 0
  {
    if zones == [] then []
    else
      assert zones == [zones[0]] + zones[1..];
      (if zones[0].locationId == id then [zones[0]] else []) + ZonesWithId(zones[1..], id)
  }

  ghost predicate UniqueLocationIds(zones: seq<Zone>)
  {
    forall i, j :: 0 <= i < j < |zones| ==> zones[i].locationId != zones[j].locationId
  }

  /** The zone row for `id`: the first one, or none. */
  function LookupZone(zones: seq<Zone>, id: int): (r: Option<Zone>)
    ensures r.Some? ==> r.value in zones && r.value.locationId == id
    ensures r.None? ==> forall z :: z in zones ==> z.locationId != id
  {
    if zones == [] then None
    else if zones[0].locationId == id then Some(zones[0])
    else LookupZone(zones[1..], id)
  }

  /** With unique ids, the matching zone rows are at most the one `LookupZone` finds. */
  lemma {:induction false} UniqueIdMatchesOnce(zones: seq<Zone>, id: int)
    requires UniqueLocationIds(zones)
    ensures ZonesWithId(zones, id) == match LookupZone(zones, id) case Some(z) => [z] case None => []
  {
    if zones != [] {
      UniqueIdMatchesOnce(zones[1..], id);
      if zones[0].locationId == id {
        assert forall z :: z in zones[1..] ==> z.locationId != id;
        assert ZonesWithId(zones[1..], id) == [];
      }
    }
  }

  /**
    The left join of one trip: one row per matching zone row, or a single
    row with null names when none matches. When `fill` is false the table
    already holds this side's name columns; polars keeps them and puts the
    joined copies under `_right`-suffixed names, which the model drops.
   */
  function JoinRow(t: Trip, zones: seq<Zone>, side: Side, fill: bool): (r: seq<Trip>)
    ensures |r| == MatchCount(t, zones, side)
    ensures forall k :: 0 <= k < |r| ==> WithNames(r[k], side, None, None) == WithNames(t, side, None, None)
    ensures !fill ==> forall k :: 0 <= k < |r| ==> r[k] == t
  {
    var m := ZonesWithId(zones, LocationOf(t, side));
    if m == [] then [if fill then WithNames(t, side, None, None) else t]
    else seq(|m|, i requires 0 <= i < |m| =>
                    if fill then WithNames(t, side, m[i].zone, m[i].borough) else t)
  }

  /** `rows.join(zones, how="left")` on one side: left row order kept, matches fanned out. */
  function LeftJoin(rows: seq<Trip>, zones: seq<Zone>, side: Side, fill: bool): (r: seq<Trip>)
    ensures |r| >= |rows|
  {
    if rows == [] then []
    else LeftJoin(rows[..|rows| - 1], zones, side, fill) + JoinRow(rows[|rows| - 1], zones, side, fill)
  }

  /** How many rows the left join makes of trip `t`: one per matching zone row, and at least one. */
  function MatchCount(t: Trip, zones: seq<Zone>, side: Side): nat
  {
    var n := |ZonesWithId(zones, LocationOf(t, side))|;
    if n == 0 then 1 else n
  }

  /** The number of rows the left join makes of `rows`. */
  function JoinedSize(rows: seq<Trip>, zones: seq<Zone>, side: Side): nat
  {
    if rows == [] then 0
    else JoinedSize(rows[..|rows| - 1], zones, side) + MatchCount(rows[|rows| - 1], zones, side)
  }

  /**
    `out` is a row the left join can make of trip `t`: the trip itself when
    this side's names are already present, else the trip with the names of
    one zone row carrying its location id, or with null names when no zone
    row does.
   */
  ghost predicate JoinedFrom(out: Trip, t: Trip, zones: seq<Zone>, side: Side, fill: bool)
  {
    if !fill then out == t
    else if exists z :: z in zones && z.locationId == LocationOf(t, side) then
      exists z :: z in zones && z.locationId == LocationOf(t, side) && out == WithNames(t, side, z.zone, z.borough)
    else out == WithNames(t, side, None, None)
  }

  /** The zone and borough a trip holds on one side. */
  function NamesOn(t: Trip, side: Side): (Option<string>, Option<string>)
  {
    if side == Pickup then (t.pickupZone, t.pickupBorough) else (t.dropoffZone, t.dropoffBorough)
  }

  /** The names one side of each row holds, in row order. */
  function SideNames(r: seq<Trip>, side: Side): seq<(Option<string>, Option<string>)>
  {
    seq(|r|, k requires 0 <= k < |r| => NamesOn(r[k], side))
  }

  /** The zone and borough of each zone row, in table order. */
  function ZoneNamePairs(m: seq<Zone>): seq<(Option<string>, Option<string>)>
  {
    seq(|m|, k requires 0 <= k < |m| => (m[k].zone, m[k].borough))
  }

  lemma JoinRowFrom(t: Trip, zones: seq<Zone>, side: Side, fill: bool)
    ensures |JoinRow(t, zones, side, fill)| == MatchCount(t, zones, side) >= 1
    ensures forall k :: 0 <= k < |JoinRow(t, zones, side, fill)| ==> JoinedFrom(JoinRow(t, zones, side, fill)[k], t, zones, side, fill)
    ensures fill && ZonesWithId(zones, LocationOf(t, side)) != [] ==>
      multiset(SideNames(JoinRow(t, zones, side, fill), side))
        == multiset(ZoneNamePairs(ZonesWithId(zones, LocationOf(t, side))))
  {
    var m := ZonesWithId(zones, LocationOf(t, side));
    var r := JoinRow(t, zones, side, fill);
    if fill {
      if m == [] {
        assert forall z :: z in zones ==> z.locationId != LocationOf(t, side);
      } else {
        forall k | 0 <= k < |r| ensures JoinedFrom(r[k], t, zones, side, fill) {
          assert m[k] in m;
          assert r[k] == WithNames(t, side, m[k].zone, m[k].borough);
        }
        assert SideNames(r, side) == ZoneNamePairs(m);
      }
    }
  }

  /** The left join makes `MatchCount` rows of every trip: a duplicated location id fans a trip out. */
  lemma {:induction false} LeftJoinSize(rows: seq<Trip>, zones: seq<Zone>, side: Side, fill: bool)
    ensures |LeftJoin(rows, zones, side, fill)| == JoinedSize(rows, zones, side)
  {
    if rows != [] {
      LeftJoinSize(rows[..|rows| - 1], zones, side, fill);
      JoinRowFrom(rows[|rows| - 1], zones, side, fill);
    }
  }

  /** Every row of the left join is made of some input trip. */
  lemma {:induction false} LeftJoinRowsFromTrips(rows: seq<Trip>, zones: seq<Zone>, side: Side, fill: bool)
    ensures forall j :: 0 <= j < |LeftJoin(rows, zones, side, fill)| ==>
      exists i :: 0 <= i < |rows| && JoinedFrom(LeftJoin(rows, zones, side, fill)[j], rows[i], zones, side, fill)
  {
    if rows != [] {
      var init, t := rows[..|rows| - 1], rows[|rows| - 1];
      var left, right := LeftJoin(init, zones, side, fill), JoinRow(t, zones, side, fill);
      var r := LeftJoin(rows, zones, side, fill);
      assert r == left + right;
      LeftJoinRowsFromTrips(init, zones, side, fill);
      JoinRowFrom(t, zones, side, fill);
      forall j | 0 <= j < |r| ensures exists i :: 0 <= i < |rows| && JoinedFrom(r[j], rows[i], zones, side, fill) {
        if j < |left| {
          assert r[j] == left[j];
          var i :| 0 <= i < |init| && JoinedFrom(left[j], init[i], zones, side, fill);
          assert rows[i] == init[i];
        } else {
          assert r[j] == right[j - |left|];
          assert JoinedFrom(r[j], rows[|rows| - 1], zones, side, fill);
        }
      }
    } else {
      assert LeftJoin(rows, zones, side, fill) == [];
    }
  }

  /** Some row of `r` is made of trip `t`. */
  ghost predicate HasRowFrom(r: seq<Trip>, t: Trip, zones: seq<Zone>, side: Side, fill: bool)
  {
    exists j :: 0 <= j < |r| && JoinedFrom(r[j], t, zones, side, fill)
  }

  /** A row made of `t` stays one when more rows are appended. */
  lemma HasRowFromPrefix(left: seq<Trip>, right: seq<Trip>, t: Trip, zones: seq<Zone>, side: Side, fill: bool)
    requires HasRowFrom(left, t, zones, side, fill)
    ensures HasRowFrom(left + right, t, zones, side, fill)
  {
    var j :| 0 <= j < |left| && JoinedFrom(left[j], t, zones, side, fill);
    assert (left + right)[j] == left[j];
  }

  /** The rows the join appends for `t` include one made of `t`. */
  lemma HasRowFromLast(left: seq<Trip>, t: Trip, zones: seq<Zone>, side: Side, fill: bool)
    ensures HasRowFrom(left + JoinRow(t, zones, side, fill), t, zones, side, fill)
  {
    var right := JoinRow(t, zones, side, fill);
    JoinRowFrom(t, zones, side, fill);
    assert (left + right)[|left|] == right[0];
    assert JoinedFrom((left + right)[|left|], t, zones, side, fill);
  }

  /** No trip is lost: the left join makes at least one row of every input trip. */
  lemma {:induction false} LeftJoinKeepsEveryTrip(rows: seq<Trip>, zones: seq<Zone>, side: Side, fill: bool)
    ensures forall i :: 0 <= i < |rows| ==> HasRowFrom(LeftJoin(rows, zones, side, fill), rows[i], zones, side, fill)
  {
    if rows != [] {
      var init, t := rows[..|rows| - 1], rows[|rows| - 1];
      var left, right := LeftJoin(init, zones, side, fill), JoinRow(t, zones, side, fill);
      assert LeftJoin(rows, zones, side, fill) == left + right;
      LeftJoinKeepsEveryTrip(init, zones, side, fill);
      forall i | 0 <= i < |rows| ensures HasRowFrom(left + right, rows[i], zones, side, fill) {
        if i < |init| {
          assert rows[i] == init[i];
          HasRowFromPrefix(left, right, init[i], zones, side, fill);
        } else {
          HasRowFromLast(left, t, zones, side, fill);
        }
      }
    }
  }

  /** Two zone rows with the same id turn one trip into two rows, one per zone name. */
  lemma DuplicateIdFansOut(t: Trip)
    requires t.puLocationId == 7
    ensures var zones := [Zone(7, Some("A"), Some("X")), Zone(7, Some("B"), Some("X"))];
      LeftJoin([t], zones, Pickup, true)
      == [t.(pickupZone := Some("A"), pickupBorough := Some("X")), t.(pickupZone := Some("B"), pickupBorough := Some("X"))]
  {
    var zones := [Zone(7, Some("A"), Some("X")), Zone(7, Some("B"), Some("X"))];
    var a, b := WithNames(t, Pickup, Some("A"), Some("X")), WithNames(t, Pickup, Some("B"), Some("X"));
    assert JoinRow(t, zones, Pickup, true) == [a, b] by {
      assert ZonesWithId(zones, 7) == zones by {
        assert zones[1..] == [zones[1]];
        assert zones[1..][1..] == [];
        assert ZonesWithId(zones[1..], 7) == [zones[1]];
      }
    }
    assert LeftJoin([t], zones, Pickup, true) == JoinRow(t, zones, Pickup, true) by {
      assert [t][..0] == [];
    }
  }

  /** What the join makes of one trip when location ids are unique. */
  function Named(t: Trip, zones: seq<Zone>, side: Side, fill: bool): Trip
  {
    if !fill then t
    else match LookupZone(zones, LocationOf(t, side))
      case Some(z) => WithNames(t, side, z.zone, z.borough)
      case None => WithNames(t, side, None, None)
  }

  /** With unique location ids the left join is a row-by-row lookup: same count, same order. */
  lemma {:induction false} LeftJoinUnique(rows: seq<Trip>, zones: seq<Zone>, side: Side, fill: bool)
    requires UniqueLocationIds(zones)
    ensures |LeftJoin(rows, zones, side, fill)| == |rows|
    ensures forall i :: 0 <= i < |rows| ==> LeftJoin(rows, zones, side, fill)[i] == Named(rows[i], zones, side, fill)
  {
    if rows != [] {
      var init, t := rows[..|rows| - 1], rows[|rows| - 1];
      var left := LeftJoin(init, zones, side, fill);
      LeftJoinUnique(init, zones, side, fill);
      var r := LeftJoin(rows, zones, side, fill);
      LeftJoinUniqueLast(rows, zones, side, fill);
      forall i | 0 <= i < |rows| ensures r[i] == Named(rows[i], zones, side, fill) {
        if i < |init| {
          assert rows[i] == init[i] && r[i] == left[i];
        }
      }
    }
  }

  /** With unique location ids, the last trip adds exactly its `Named` row. */
  lemma LeftJoinUniqueLast(rows: seq<Trip>, zones: seq<Zone>, side: Side, fill: bool)
    requires UniqueLocationIds(zones) && rows != []
    ensures LeftJoin(rows, zones, side, fill)
         == LeftJoin(rows[..|rows| - 1], zones, side, fill) + [Named(rows[|rows| - 1], zones, side, fill)]
  {
    JoinRowUnique(rows[|rows| - 1], zones, side, fill);
  }

  /** With unique location ids, the join of one trip is the one row `Named` gives. */
  lemma JoinRowUnique(t: Trip, zones: seq<Zone>, side: Side, fill: bool)
    requires UniqueLocationIds(zones)
    ensures JoinRow(t, zones, side, fill) == [Named(t, zones, side, fill)]
  {
    UniqueIdMatchesOnce(zones, LocationOf(t, side));
  }

  /**
    `ensure_zone_names`. The guard returns the table as it is, without
    loading the zone file. Otherwise the zone file's outcome decides: a body
    that is not Parquet stops the run, a raised error propagates, and a zone
    table is joined on pickup and then on drop-off location.
   */
  function EnsureZoneNames(t: Table, zones: Fetched<seq<Zone>>): (r: Fetched<Table>)
    ensures t.hasPickupNames && t.hasDropoffNames ==> r == Parsed(t)
    ensures !(t.hasPickupNames && t.hasDropoffNames) ==>
      && (zones.NotParquet? ==> r == NotParquet(zones.excerpt))
      && (zones.FetchFailed? ==> r == FetchFailed)
      && (zones.Parsed? ==> r.Parsed? && r.value.hasPickupNames && r.value.hasDropoffNames
                            && |r.value.rows| >= |t.rows|)
  {
    if t.hasPickupNames && t.hasDropoffNames then Parsed(t)
    else match zones
      case Parsed(z) =>
        var picked := LeftJoin(t.rows, z, Pickup, !t.hasPickupNames);
        Parsed(Table(LeftJoin(picked, z, Dropoff, !t.hasDropoffNames), true, true))
      case NotParquet(e) => NotParquet(e)
      case FetchFailed => FetchFailed
  }

  /** Enriching an enriched table changes nothing, and needs no zone file. */
  lemma EnsureZoneNamesIdempotent(t: Table, zones: Fetched<seq<Zone>>, again: Fetched<seq<Zone>>)
    requires EnsureZoneNames(t, zones).Parsed?
    ensures EnsureZoneNames(EnsureZoneNames(t, zones).value, again) == EnsureZoneNames(t, zones)
  {
  }

  /**
    With unique location ids, enrichment keeps the row count and order, and
    gives every trip the names of its pickup and drop-off zones (none when
    its id is absent from the zone table).
   */
  lemma EnsureZoneNamesRowwise(t: Table, zones: seq<Zone>)
    requires !(t.hasPickupNames && t.hasDropoffNames) && UniqueLocationIds(zones)
    ensures |EnsureZoneNames(t, Parsed(zones)).value.rows| == |t.rows|
    ensures forall i :: 0 <= i < |t.rows| ==>
      EnsureZoneNames(t, Parsed(zones)).value.rows[i] ==
        Named(Named(t.rows[i], zones, Pickup, !t.hasPickupNames), zones, Dropoff, !t.hasDropoffNames)
  {
    var picked := LeftJoin(t.rows, zones, Pickup, !t.hasPickupNames);
    LeftJoinUnique(t.rows, zones, Pickup, !t.hasPickupNames);
    LeftJoinUnique(picked, zones, Dropoff, !t.hasDropoffNames);
  }

  /** On a table without name columns, row `i` gets exactly the names of its two location ids. */
  lemma EnrichedNames(t: Table, zones: seq<Zone>, i: nat)
    requires !t.hasPickupNames && !t.hasDropoffNames && UniqueLocationIds(zones)
    requires i < |t.rows|
    ensures var e := EnsureZoneNames(t, Parsed(zones)).value.rows[i];
      && e.pickupZone == (match LookupZone(zones, t.rows[i].puLocationId) case Some(z) => z.zone case None => None)
      && e.pickupBorough == (match LookupZone(zones, t.rows[i].puLocationId) case Some(z) => z.borough case None => None)
      && e.dropoffZone == (match LookupZone(zones, t.rows[i].doLocationId) case Some(z) => z.zone case None => None)
      && e.dropoffBorough == (match LookupZone(zones, t.rows[i].doLocationId) case Some(z) => z.borough case None => None)
      && e.(pickupZone := None, pickupBorough := None, dropoffZone := None, dropoffBorough := None)
         == t.rows[i].(pickupZone := None, pickupBorough := None, dropoffZone := None, dropoffBorough := None)
  {
    EnsureZoneNamesRowwise(t, zones);
  }
}
