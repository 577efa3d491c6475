/** The tail of `WeatherData._collapse` and `_combine` in lib/climateData.py:
    the per-station entries are averaged over the stations of a country for
    each (country, element, year, month), rounded half to even, summed over
    the months of the year and pivoted into one column per element, keeping
    the years from 1980 on. */
module WeatherCollapse {
  import opened Wrappers
  import opened WeatherStations
  import opened WeatherSeverity
  import opened StationMappers

  /** The first year the collapsed table keeps. */
  const FirstYear := 1980

  /** `np.round`: the nearest integer, a tie going to the even neighbour. */
  function RoundHalfEven(x: real): (r: int)
    ensures x - 0.5 <= r as real <= x + 0.5
    ensures r as real - x == 0.5 || x - r as real == 0.5 ==> r % 2 == 0
  {
    var f := x.Floor;
    var frac := x - f as real;
    if frac < 0.5 then f
    else if frac > 0.5 then f + 1
    else if f % 2 == 0 then f else f + 1
  }

  /** On an average of 0/1 flags rounding gives 1 exactly above one half: a
      tie of 0.5 goes to 0. */
  lemma RoundFlag(x: real)
    requires 0.0 <= x <= 1.0
    ensures RoundHalfEven(x) == 1 <==> x > 0.5
    ensures RoundHalfEven(x) == 0 <==> x <= 0.5
  {
    var r := RoundHalfEven(x);
    if x == 0.5 {
      assert r == 0;
    }
  }

  // ----- the (country, element, year, month) cells -----

  predicate InCell(x: Entry, c: string, e: string, y: int, m: int) {
    x.country == Some(c) && x.element == e && x.year == y && x.month == m
  }

  /** The flags of one cell, one per station entry, as the averaged column. */
  function CellFlags(es: seq<Entry>, c: string, e: string, y: int, m: int): (fs: seq<real>)
    ensures |fs| <= |es|
  {
    if es == [] then []
    else
      var x := es[|es| - 1];
      CellFlags(es[..|es| - 1], c, e, y, m) + (if InCell(x, c, e, y, m) then [x.flag as real] else [])
  }

  /** The months of the entries of one (country, element, year). */
  function CellMonths(es: seq<Entry>, c: string, e: string, y: int): (ms: seq<int>)
    ensures |ms| <= |es|
  {
    if es == [] then []
    else
      var x := es[|es| - 1];
      CellMonths(es[..|es| - 1], c, e, y) + (if x.country == Some(c) && x.element == e && x.year == y then [x.month] else [])
  }

  lemma {:induction false} CellMonthsFlags(es: seq<Entry>, c: string, e: string, y: int, m: int)
    ensures m in CellMonths(es, c, e, y) <==> CellFlags(es, c, e, y, m) != []
  {
    if es != [] {
      CellMonthsFlags(es[..|es| - 1], c, e, y, m);
    }
  }

  lemma {:induction false} CellFlagsWitness(es: seq<Entry>, c: string, e: string, y: int, m: int)
    ensures CellFlags(es, c, e, y, m) != [] <==> exists i :: 0 <= i < |es| && InCell(es[i], c, e, y, m)
  {
    if es != [] {
      var p := es[..|es| - 1];
      CellFlagsWitness(p, c, e, y, m);
      if exists i :: 0 <= i < |p| && InCell(p[i], c, e, y, m) {
        var i :| 0 <= i < |p| && InCell(p[i], c, e, y, m);
        assert es[i] == p[i];
      }
      if exists i :: 0 <= i < |es| && InCell(es[i], c, e, y, m) {
        var i :| 0 <= i < |es| && InCell(es[i], c, e, y, m);
        if i < |p| {
          assert p[i] == es[i];
        }
      }
    }
  }

  /** The count of 1 flags. */
  function Ones(fs: seq<real>): (n: nat)
    ensures n <= |fs|
  {
    if fs == [] then 0 else Ones(fs[..|fs| - 1]) + (if fs[|fs| - 1] == 1.0 then 1 else 0)
  }

  lemma {:induction false} FlagSum(fs: seq<real>)
    requires forall i :: 0 <= i < |fs| ==> fs[i] == 0.0 || fs[i] == 1.0
    ensures Sum(fs) == Ones(fs) as real
  {
    if fs != [] {
      var p := fs[..|fs| - 1];
      FlagSum(p);
      assert Sum(fs) == Sum(p) + fs[|fs| - 1];
      assert Ones(fs) == Ones(p) + (if fs[|fs| - 1] == 1.0 then 1 else 0);
    }
  }

  lemma {:induction false} CellFlagsBinary(es: seq<Entry>, c: string, e: string, y: int, m: int)
    requires forall x :: x in es ==> 0 <= x.flag <= 1
    ensures forall i :: 0 <= i < |CellFlags(es, c, e, y, m)| ==>
      CellFlags(es, c, e, y, m)[i] == 0.0 || CellFlags(es, c, e, y, m)[i] == 1.0
  {
    if es != [] {
      assert es[|es| - 1] in es;
      var p := es[..|es| - 1];
      forall x | x in p ensures 0 <= x.flag <= 1 {
        var i :| 0 <= i < |p| && p[i] == x;
        assert es[i] == x;
      }
      CellFlagsBinary(p, c, e, y, m);
      var x := es[|es| - 1];
      var fs := CellFlags(es, c, e, y, m);
      var q := CellFlags(p, c, e, y, m);
      assert fs == q + (if InCell(x, c, e, y, m) then [x.flag as real] else []);
      forall i | 0 <= i < |fs| ensures fs[i] == 0.0 || fs[i] == 1.0 {
        if i < |q| {
          assert fs[i] == q[i];
        } else {
          assert fs[i] == x.flag as real;
          assert x.flag == 0 || x.flag == 1;
        }
      }
    }
  }

  /** The rounded average of one cell's flags. */
  function MonthFlag(es: seq<Entry>, c: string, e: string, y: int, m: int): int
    requires CellFlags(es, c, e, y, m) != []
  {
    RoundHalfEven(Mean(CellFlags(es, c, e, y, m)))
  }

  lemma Majority(s: real, n: real)
    requires n > 0.0
    ensures s / n > 0.5 <==> 2.0 * s > n
  {
  }

  /** A month of a country counts as extreme exactly when strictly more than
      half of its stations flag it. */
  lemma MonthFlagMajority(es: seq<Entry>, c: string, e: string, y: int, m: int)
    requires forall x :: x in es ==> 0 <= x.flag <= 1
    requires CellFlags(es, c, e, y, m) != []
    ensures var fs := CellFlags(es, c, e, y, m);
      (MonthFlag(es, c, e, y, m) == 1 <==> 2 * Ones(fs) > |fs|) &&
      (MonthFlag(es, c, e, y, m) == 0 <==> 2 * Ones(fs) <= |fs|)
  {
    var fs := CellFlags(es, c, e, y, m);
    CellFlagsBinary(es, c, e, y, m);
    FlagSum(fs);
    MeanWithin(fs, 0.0, 1.0);
    RoundFlag(Mean(fs));
    Majority(Sum(fs), |fs| as real);
  }

  /** The monthly flags of the months `ms`, summed. */
  function MonthSum(es: seq<Entry>, c: string, e: string, y: int, ms: seq<int>): int
    requires forall k :: 0 <= k < |ms| ==> CellFlags(es, c, e, y, ms[k]) != []
  {
    if ms == [] then 0
    else MonthSum(es, c, e, y, ms[..|ms| - 1]) + MonthFlag(es, c, e, y, ms[|ms| - 1])
  }

  lemma {:induction false} MonthSumBound(es: seq<Entry>, c: string, e: string, y: int, ms: seq<int>)
    requires forall x :: x in es ==> 0 <= x.flag <= 1
    requires forall k :: 0 <= k < |ms| ==> CellFlags(es, c, e, y, ms[k]) != []
    ensures 0 <= MonthSum(es, c, e, y, ms) <= |ms|
  {
    if ms != [] {
      MonthSumBound(es, c, e, y, ms[..|ms| - 1]);
      MonthFlagMajority(es, c, e, y, ms[|ms| - 1]);
    }
  }

  /** The value of one element in one year for one country: the number of
      its months whose rounded flag is 1. */
  function YearValue(es: seq<Entry>, c: string, e: string, y: int): int
  {
    var ms := Distinct(CellMonths(es, c, e, y));
    DistinctShape(CellMonths(es, c, e, y));
    assert forall k :: 0 <= k < |ms| ==> CellFlags(es, c, e, y, ms[k]) != [] by {
      forall k | 0 <= k < |ms| ensures CellFlags(es, c, e, y, ms[k]) != [] {
        CellMonthsFlags(es, c, e, y, ms[k]);
      }
    }
    MonthSum(es, c, e, y, ms)
  }

  /** The number of months of a year with a valid flag is between 0 and the
      number of distinct months present, so at most 12 for calendar months. */
  lemma YearValueBound(es: seq<Entry>, c: string, e: string, y: int)
    requires forall x :: x in es ==> 0 <= x.flag <= 1
    ensures 0 <= YearValue(es, c, e, y) <= |Distinct(CellMonths(es, c, e, y))|
    ensures (forall x :: x in es ==> 1 <= x.month <= 12) ==> YearValue(es, c, e, y) <= 12
  {
    var cm := CellMonths(es, c, e, y);
    var ms := Distinct(cm);
    DistinctShape(cm);
    forall k | 0 <= k < |ms| ensures CellFlags(es, c, e, y, ms[k]) != [] {
      CellMonthsFlags(es, c, e, y, ms[k]);
    }
    MonthSumBound(es, c, e, y, ms);
    if forall x :: x in es ==> 1 <= x.month <= 12 {
      forall i | 0 <= i < |ms| ensures 1 <= ms[i] < 13 {
        CellMonthsFlags(es, c, e, y, ms[i]);
        CellFlagsWitness(es, c, e, y, ms[i]);
        var j :| 0 <= j < |es| && InCell(es[j], c, e, y, ms[i]);
        assert es[j] in es;
      }
      IncreasingLength(ms, 1, 13);
    }
  }

  // ----- the pivoted table -----

  /** The (country, year) rows: entries without a country are dropped by the
      group-by. */
  function CountryYears(es: seq<Entry>): set<(string, int)>
  {
    set x | x in es && x.country.Some? :: (x.country.value, x.year)
  }

  /** The element columns present for one (country, year). */
  function ElementsAt(es: seq<Entry>, c: string, y: int): set<string>
  {
    set x | x in es && x.country == Some(c) && x.year == y :: x.element
  }

  /** The collapsed table: (country, year) to element to its yearly value. */
  function Collapse(es: seq<Entry>): (r: map<(string, int), map<string, int>>)
    ensures forall k :: k in r ==> k.1 >= FirstYear && exists x :: x in es && x.country == Some(k.0) && x.year == k.1
  {
    map k | k in CountryYears(es) && k.1 >= FirstYear ::
      map e | e in ElementsAt(es, k.0, k.1) :: YearValue(es, k.0, e, k.1)
  }

  /** A (country, year) row exists exactly for the years from 1980 on that
      some entry with that country has, and an element column exactly when
      some entry of that country and year has that element. */
  lemma CollapseKeys(es: seq<Entry>, c: string, y: int, e: string)
    ensures (c, y) in Collapse(es) <==> y >= FirstYear && exists x :: x in es && x.country == Some(c) && x.year == y
    ensures (c, y) in Collapse(es) ==>
      (e in Collapse(es)[(c, y)] <==> exists x :: x in es && x.country == Some(c) && x.year == y && x.element == e)
  {
    if exists x :: x in es && x.country == Some(c) && x.year == y {
      var x :| x in es && x.country == Some(c) && x.year == y;
      assert (x.country.value, x.year) in CountryYears(es);
    }
    if exists x :: x in es && x.country == Some(c) && x.year == y && x.element == e {
      var x :| x in es && x.country == Some(c) && x.year == y && x.element == e;
      assert x.element in ElementsAt(es, c, y);
    }
  }

  /** With 0/1 flags on calendar months every value of the table lies in 0..12. */
  lemma CollapseBound(es: seq<Entry>)
    requires forall x :: x in es ==> 0 <= x.flag <= 1 && 1 <= x.month <= 12
    ensures forall k, e :: k in Collapse(es) && e in Collapse(es)[k] ==> 0 <= Collapse(es)[k][e] <= 12
  {
    forall k, e | k in Collapse(es) && e in Collapse(es)[k]
      ensures 0 <= Collapse(es)[k][e] <= 12
    {
      YearValueBound(es, k.0, e, k.1);
    }
  }

  // ----- from the stations' rows to the table (`_combine`) -----

  /** `pd.concat` of the stations' frames. */
  function Concat(stations: seq<seq<Row>>): (rows: seq<Row>)
  {
    if stations == [] then [] else Concat(stations[..|stations| - 1]) + stations[|stations| - 1]
  }

  lemma {:induction false} ConcatMembers(stations: seq<seq<Row>>, r: Row)
    ensures r in Concat(stations) <==> exists i :: 0 <= i < |stations| && r in stations[i]
  {
    if stations != [] {
      var init := stations[..|stations| - 1];
      ConcatMembers(init, r);
      if exists i :: 0 <= i < |init| && r in init[i] {
        var i :| 0 <= i < |init| && r in init[i];
        assert stations[i] == init[i];
      }
      if exists i :: 0 <= i < |stations| && r in stations[i] {
        var i :| 0 <= i < |stations| && r in stations[i];
        if i < |init| {
          assert init[i] == stations[i];
        }
      }
    }
  }

  /** The rows that carry a value. The rows without one are the placeholders of
      stations with no wanted record; such a station's only row is a lone
      record, which `getStatistics` always skips (`LoneRecordSkipped`). */
  function Observations(rows: seq<Row>): (os: seq<Obs>)
    ensures forall o :: o in os ==> exists r ::
      r in rows && r.value == Some(o.value) &&
      r.station == o.station && r.element == o.element && r.month == o.month && r.year == o.year
  {
    if rows == [] then []
    else
      var r := rows[|rows| - 1];
      var os := Observations(rows[..|rows| - 1]);
      assert forall x :: x in rows[..|rows| - 1] ==> x in rows;
      os + (if r.value.Some? then [Obs(r.station, r.element, r.month, r.year, r.value.value)] else [])
  }

  /** The station identifiers, each once, in order of first appearance. */
  function StationIds(data: seq<Obs>): (ids: seq<string>)
    ensures forall s :: s in ids ==> exists o :: o in data && o.station == s
  {
    if data == [] then []
    else
      var ids := StationIds(data[..|data| - 1]);
      var s := data[|data| - 1].station;
      assert forall x :: x in data[..|data| - 1] ==> x in data;
      if s in ids then ids else ids + [s]
  }

  /** `groupby(["Station ID"])`: the records of one station. */
  function OfStation(data: seq<Obs>, s: string): (g: seq<Obs>)
    ensures forall o :: o in g <==> o in data && o.station == s
  {
    if data == [] then []
    else OfStation(data[..|data| - 1], s) + (if data[|data| - 1].station == s then [data[|data| - 1]] else [])
  }

  lemma OfStationOne(data: seq<Obs>, s: string)
    requires s in StationIds(data)
    ensures OneStation(OfStation(data, s))
  {
    var g := OfStation(data, s);
    var o :| o in data && o.station == s;
    assert o in g;
    forall i | 0 <= i < |g| ensures g[i].station == g[0].station {
      assert g[i] in g && g[0] in g;
    }
  }

  /** The entries of the stations `ids`, each tagged with the country the
      station mapper gives it. */
  function StationsStatistics(data: seq<Obs>, ids: seq<string>, mapper: WeatherStationMapper): seq<Entry>
    requires forall k :: 0 <= k < |ids| ==> ids[k] in StationIds(data)
    reads mapper
  {
    if ids == [] then []
    else
      var s := ids[|ids| - 1];
      OfStationOne(data, s);
      StationsStatistics(data, ids[..|ids| - 1], mapper) + Statistics(OfStation(data, s), mapper.Call(s))
  }

  /** `_combine`: the table of all stations together. With no station,
      `pd.concat` of an empty list is a ValueError; when no station yields an
      entry, the grouped frame has no "Country" column and the second
      `groupby` is a KeyError. */
  function Combine(stations: seq<seq<Row>>, mapper: WeatherStationMapper): (r: Result<map<(string, int), map<string, int>>>)
    reads mapper
    ensures stations == [] ==> r == Err(ValueInvalid)
    ensures stations != [] && (forall i :: 0 <= i < |stations| ==> stations[i] == []) ==> r == Err(KeyMissing)
    ensures r.Err? ==> r.failure == ValueInvalid || r.failure == KeyMissing
  {
    if stations == [] then Err(ValueInvalid)
    else
      var data := Observations(Concat(stations));
      var es := StationsStatistics(data, StationIds(data), mapper);
      NoRowsNoEntries(stations, mapper);
      if es == [] then Err(KeyMissing) else Ok(Collapse(es))
  }

  /** Stations without rows concatenate to no rows. */
  lemma {:induction false} ConcatEmpty(stations: seq<seq<Row>>)
    ensures (forall i :: 0 <= i < |stations| ==> stations[i] == []) ==> Concat(stations) == []
  {
    if stations != [] {
      ConcatEmpty(stations[..|stations| - 1]);
    }
  }

  /** Stations without rows yield no observation and so no entry. */
  lemma NoRowsNoEntries(stations: seq<seq<Row>>, mapper: WeatherStationMapper)
    ensures (forall i :: 0 <= i < |stations| ==> stations[i] == []) ==>
      var data := Observations(Concat(stations));
      data == [] && StationsStatistics(data, StationIds(data), mapper) == []
  {
    ConcatEmpty(stations);
  }

  lemma {:induction false} ElementsEntriesNone(rows: seq<Obs>, c: Option<string>, es: seq<string>)
    requires forall k :: 0 <= k < |es| ==> ElementEntries(rows, c, es[k]) == []
    ensures ElementsEntries(rows, c, es) == []
  {
    if es != [] {
      ElementsEntriesNone(rows, c, es[..|es| - 1]);
    }
  }

  /** A station with a single record yields no entry at all: the record's
      element frame spans one year, which cannot both reach back to 1950 and
      forward to 2013. So dropping the placeholder rows changes nothing. */
  lemma LoneRecordSkipped(rows: seq<Obs>, c: Option<string>)
    requires |rows| == 1
    ensures Statistics(rows, c) == []
  {
    forall k | 0 <= k < |Elements| ensures ElementEntries(rows, c, Elements[k]) == [] {
      var e := Elements[k];
      var df := OfElement(rows, e);
      assert rows == [rows[0]];
      assert OfElement(rows, e) == OfElement([], e) + (if rows[0].element == e then [rows[0]] else []);
      if rows[0].element == e {
        assert df == [rows[0]];
        assert YearsOf(df) == [rows[0].year];
        assert Skipped(df);
      } else {
        assert df == [];
        assert MonthsOf(df) == [];
      }
    }
    ElementsEntriesNone(rows, c, Elements);
  }

  /** Every entry of the stations `ids` has a 0/1 flag, a month and year of one
      of their records, and the country the mapper gives one of them. */
  lemma {:induction false} StationsStatisticsFrom(data: seq<Obs>, ids: seq<string>, mapper: WeatherStationMapper)
    requires forall k :: 0 <= k < |ids| ==> ids[k] in StationIds(data)
    ensures forall x :: x in StationsStatistics(data, ids, mapper) ==>
      0 <= x.flag <= 1 && FromRecord(x, data) && exists k :: 0 <= k < |ids| && x.country == mapper.Call(ids[k])
  {
    if ids != [] {
      var init := ids[..|ids| - 1];
      var s := ids[|ids| - 1];
      StationsStatisticsFrom(data, init, mapper);
      OfStationOne(data, s);
      StatisticsEntries(OfStation(data, s), mapper.Call(s));
      forall x | x in StationsStatistics(data, ids, mapper)
        ensures 0 <= x.flag <= 1 && FromRecord(x, data) && exists k :: 0 <= k < |ids| && x.country == mapper.Call(ids[k])
      {
        if x in StationsStatistics(data, init, mapper) {
          var k :| 0 <= k < |init| && x.country == mapper.Call(init[k]);
          assert ids[k] == init[k];
        } else {
          assert x in Statistics(OfStation(data, s), mapper.Call(s));
          var o :| o in OfStation(data, s) && o.element == x.element && o.month == x.month && o.year == x.year;
          assert o in data;
          assert x.country == mapper.Call(ids[|ids| - 1]);
        }
      }
    }
  }

  /** With calendar months in every station's rows, each value of the table is
      a count in 0..12; every row is a year from 1980 on, for a country the
      station mapper assigns to some station. */
  lemma CombineTable(stations: seq<seq<Row>>, mapper: WeatherStationMapper)
    requires forall i, r :: 0 <= i < |stations| && r in stations[i] ==> 1 <= r.month <= 12
    requires Combine(stations, mapper).Ok?
    ensures var t := Combine(stations, mapper).value;
      forall k, e :: k in t && e in t[k] ==> 0 <= t[k][e] <= 12
    ensures var t := Combine(stations, mapper).value;
      forall k :: k in t ==> k.1 >= FirstYear && exists s :: s in mapper.stations && mapper.stations[s] == k.0
  {
    var data := Observations(Concat(stations));
    var ids := StationIds(data);
    var es := StationsStatistics(data, ids, mapper);
    StationsStatisticsFrom(data, ids, mapper);
    forall x | x in es ensures 0 <= x.flag <= 1 && 1 <= x.month <= 12 {
      var o :| o in data && o.element == x.element && o.month == x.month && o.year == x.year;
      var r :| r in Concat(stations) && r.month == o.month;
      ConcatMembers(stations, r);
    }
    CollapseBound(es);
    forall k | k in Collapse(es)
      ensures k.1 >= FirstYear && exists s :: s in mapper.stations && mapper.stations[s] == k.0
    {
      CollapseKeys(es, k.0, k.1, "");
      var x :| x in es && x.country == Some(k.0) && x.year == k.1;
      var j :| 0 <= j < |ids| && x.country == mapper.Call(ids[j]);
      assert ids[j] in mapper.stations;
    }
  }
}
