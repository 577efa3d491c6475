/** The severity index of `WeatherData` in lib/climateData.py: every month of
    every year of a station is classified as extreme or normal against the
    same month of all earlier years (`getStatistics`), then the flags are
    averaged over the stations of a country, rounded, and summed over the
    months of a year (`_collapse`). */
module WeatherSeverity {
  import opened Wrappers
  import opened WeatherStations

  /** One record of the combined station frames, without its country. */
  datatype Obs = Obs(station: string, element: string, month: int, year: int, value: real)

  /** One record of `getStatistics`: `flag` is 1 for an extreme month, else 0. */
  datatype Entry = Entry(country: Option<string>, element: string, month: int, year: int, flag: int)

  /** The number of standard deviations beyond which a month is extreme. */
  const Factor: real := 1.54

  // ----- distinct keys in ascending order -----

  function MinOf(xs: seq<int>): (m: int)
    requires xs != []
    ensures m in xs && forall i :: 0 <= i < |xs| ==> m <= xs[i]
  {
    if |xs| == 1 then xs[0]
    else var m := MinOf(xs[1..]); if xs[0] <= m then xs[0] else m
  }

  function MaxOf(xs: seq<int>): (m: int)
    requires xs != []
    ensures m in xs && forall i :: 0 <= i < |xs| ==> xs[i] <= m
  {
    if |xs| == 1 then xs[0]
    else var m := MaxOf(xs[1..]); if xs[0] >= m then xs[0] else m
  }

  /** The members of `s` in `[lo, hi)`, ascending. */
  function Range(lo: int, hi: int, s: set<int>): seq<int>
    decreases hi - lo
  {
    if lo >= hi then [] else (if lo in s then [lo] else []) + Range(lo + 1, hi, s)
  }

  lemma {:induction false} RangeShape(lo: int, hi: int, s: set<int>)
    ensures var r := Range(lo, hi, s);
      (forall k :: k in r <==> lo <= k < hi && k in s) &&
      (forall a, b :: 0 <= a < b < |r| ==> r[a] < r[b])
    decreases hi - lo
  {
    if lo < hi {
      RangeShape(lo + 1, hi, s);
      var t := Range(lo + 1, hi, s);
      var r := Range(lo, hi, s);
      assert forall k :: k in t ==> lo < k;
      assert r == (if lo in s then [lo] else []) + t;
      if lo in s {
        forall a, b | 0 <= a < b < |r| ensures r[a] < r[b] {
          assert r[b] == t[b - 1];
          if a > 0 {
            assert r[a] == t[a - 1];
          } else {
            assert t[b - 1] in t;
          }
        }
      }
    }
  }

  /** The distinct values of `xs`, ascending: the keys `groupby` visits. */
  function Distinct(xs: seq<int>): seq<int>
  {
    if xs == [] then [] else Range(MinOf(xs), MaxOf(xs) + 1, set x | x in xs)
  }

  lemma DistinctShape(xs: seq<int>)
    ensures var d := Distinct(xs);
      (forall k :: k in d <==> k in xs) &&
      (forall a, b :: 0 <= a < b < |d| ==> d[a] < d[b]) &&
      (xs != [] ==> d != [] && d[0] == MinOf(xs))
  {
    if xs != [] {
      var s := set x | x in xs;
      RangeShape(MinOf(xs), MaxOf(xs) + 1, s);
      var d := Distinct(xs);
      assert MinOf(xs) in d;
      var j :| 0 <= j < |d| && d[j] == MinOf(xs);
      assert d[0] <= d[j];
      assert d[0] in xs;
    }
  }

  /** A strictly increasing sequence within `[lo, hi)` has at most `hi - lo` members. */
  lemma {:induction false} IncreasingLength(xs: seq<int>, lo: int, hi: int)
    requires forall a, b :: 0 <= a < b < |xs| ==> xs[a] < xs[b]
    requires forall i :: 0 <= i < |xs| ==> lo <= xs[i] < hi
    ensures |xs| <= if hi < lo then 0 else hi - lo
  {
    if xs != [] {
      IncreasingLength(xs[1..], xs[0] + 1, hi);
    }
  }

  // ----- the frame, filtered -----

  function YearsOf(g: seq<Obs>): (ys: seq<int>)
    ensures |ys| == |g| && forall i :: 0 <= i < |g| ==> ys[i] == g[i].year
  {
    seq(|g|, i requires 0 <= i < |g| => g[i].year)
  }

  function MonthsOf(g: seq<Obs>): (ms: seq<int>)
    ensures |ms| == |g| && forall i :: 0 <= i < |g| ==> ms[i] == g[i].month
  {
    seq(|g|, i requires 0 <= i < |g| => g[i].month)
  }

  /** `subdf[subdf["Element"] == element]`. */
  function OfElement(g: seq<Obs>, e: string): (r: seq<Obs>)
    ensures forall x :: x in r <==> x in g && x.element == e
  {
    if g == [] then []
    else OfElement(g[..|g| - 1], e) + (if g[|g| - 1].element == e then [g[|g| - 1]] else [])
  }

  /** The group of one month. */
  function OfMonth(g: seq<Obs>, m: int): (r: seq<Obs>)
    ensures forall x :: x in r <==> x in g && x.month == m
  {
    if g == [] then []
    else OfMonth(g[..|g| - 1], m) + (if g[|g| - 1].month == m then [g[|g| - 1]] else [])
  }

  /** `group[group["Year"] < year]["Value"]`. */
  function Before(g: seq<Obs>, y: int): seq<real>
  {
    if g == [] then []
    else Before(g[..|g| - 1], y) + (if g[|g| - 1].year < y then [g[|g| - 1].value] else [])
  }

  /** `group[group["Year"] == year]["Value"]`. */
  function During(g: seq<Obs>, y: int): seq<real>
  {
    if g == [] then []
    else During(g[..|g| - 1], y) + (if g[|g| - 1].year == y then [g[|g| - 1].value] else [])
  }

  lemma {:induction false} BeforeNonEmpty(g: seq<Obs>, y: int, i: int)
    requires 0 <= i < |g| && g[i].year < y
    ensures Before(g, y) != []
  {
    if i < |g| - 1 {
      BeforeNonEmpty(g[..|g| - 1], y, i);
    }
  }

  lemma {:induction false} DuringNonEmpty(g: seq<Obs>, y: int, i: int)
    requires 0 <= i < |g| && g[i].year == y
    ensures During(g, y) != []
  {
    if i < |g| - 1 {
      DuringNonEmpty(g[..|g| - 1], y, i);
    }
  }

  // ----- the classification -----

  /** `np.std(x) ** 2`: the population variance. */
  function Variance(xs: seq<real>): real
    requires xs != []
  {
    var mu := Mean(xs);
    Mean(seq(|xs|, i requires 0 <= i < |xs| => (xs[i] - mu) * (xs[i] - mu)))
  }

  lemma VarianceNonNegative(xs: seq<real>)
    requires xs != []
    ensures Variance(xs) >= 0.0
  {
    var mu := Mean(xs);
    var sq := seq(|xs|, i requires 0 <= i < |xs| => (xs[i] - mu) * (xs[i] - mu));
    forall i | 0 <= i < |sq| ensures 0.0 <= sq[i] {
      SquareNonNegative(xs[i] - mu);
    }
    assert Variance(xs) == Mean(sq);
    MeanAtLeast(sq);
  }

  lemma SquareNonNegative(d: real)
    ensures 0.0 <= d * d
  {
    if d < 0.0 {
      assert d * d == (-d) * (-d);
    }
  }

  lemma MeanAtLeast(xs: seq<real>)
    requires xs != [] && forall i :: 0 <= i < |xs| ==> 0.0 <= xs[i]
    ensures 0.0 <= Mean(xs)
  {
    SumAtLeast(xs);
    assert Sum(xs) >= 0.0;
  }

  lemma {:induction false} SumAtLeast(xs: seq<real>)
    requires forall i :: 0 <= i < |xs| ==> 0.0 <= xs[i]
    ensures 0.0 <= Sum(xs)
  {
    if xs != [] {
      SumAtLeast(xs[..|xs| - 1]);
    }
  }

  /** The month's mean `x` deviates from the earlier years' mean by more than
      `Factor` standard deviations, stated on squares. */
  predicate Extreme(x: real, earlier: seq<real>)
    requires earlier != []
  {
    var d := x - Mean(earlier);
    d * d > Factor * Factor * Variance(earlier)
  }

  /** The squared test is the source's two-sided band test for any standard
      deviation `sd`: strictly above `mu + 1.54 sd` or strictly below `mu - 1.54 sd`. */
  lemma BandEquiv(x: real, mu: real, sd: real, v: real)
    requires sd >= 0.0 && sd * sd == v
    ensures (x > mu + Factor * sd || x < mu - Factor * sd) <==> (x - mu) * (x - mu) > Factor * Factor * v
  {
    var d := x - mu;
    var b := Factor * sd;
    assert b >= 0.0;
    assert Factor * Factor * v == b * b;
    assert x > mu + Factor * sd <==> d > b;
    assert x < mu - Factor * sd <==> d < -b;
    assert d * d - b * b == (d - b) * (d + b);
    if d > b {
      ProductPositive(d - b, d + b);
    } else if d < -b {
      ProductPositive(b - d, -b - d);
    } else {
      ProductNonNegative(b - d, b + d);
    }
  }

  lemma ProductPositive(a: real, b: real)
    requires a > 0.0 && b > 0.0
    ensures a * b > 0.0
  {
  }

  lemma ProductNonNegative(a: real, b: real)
    requires a >= 0.0 && b >= 0.0
    ensures a * b >= 0.0
  {
  }

  /** With the standard deviation `sd` of the earlier years, a mean exactly on
      a band edge is normal, and with no spread at all any other mean is extreme. */
  lemma ExtremeEdges(x: real, earlier: seq<real>, sd: real)
    requires earlier != [] && sd >= 0.0 && sd * sd == Variance(earlier)
    ensures x == Mean(earlier) + Factor * sd || x == Mean(earlier) - Factor * sd ==> !Extreme(x, earlier)
    ensures Variance(earlier) == 0.0 ==> (Extreme(x, earlier) <==> x != Mean(earlier))
  {
    var mu := Mean(earlier);
    BandEquiv(x, mu, sd, Variance(earlier));
    var d := x - mu;
    assert Extreme(x, earlier) <==> d * d > Factor * Factor * Variance(earlier);
    if x == mu + Factor * sd || x == mu - Factor * sd {
      assert !(x > mu + Factor * sd || x < mu - Factor * sd);
    }
    if Variance(earlier) == 0.0 {
      NoSpread(x, earlier);
    }
  }

  lemma NoSpread(x: real, earlier: seq<real>)
    requires earlier != [] && Variance(earlier) == 0.0
    ensures Extreme(x, earlier) <==> x != Mean(earlier)
  {
    BandEquiv(x, Mean(earlier), 0.0, Variance(earlier));
  }

  /** The flag of year `y` of one (element, month) group: 0 for the group's
      first year, otherwise 1 iff the year's mean is extreme against all
      strictly earlier years. */
  function FlagFor(g: seq<Obs>, y: int): (f: int)
    requires y in YearsOf(g)
    ensures 0 <= f <= 1
    ensures y == MinOf(YearsOf(g)) ==> f == 0
  {
    if y == MinOf(YearsOf(g)) then 0
    else
      var i :| 0 <= i < |g| && g[i].year == y;
      var j :| 0 <= j < |g| && g[j].year == MinOf(YearsOf(g));
      DuringNonEmpty(g, y, i);
      BeforeNonEmpty(g, y, j);
      if Extreme(Mean(During(g, y)), Before(g, y)) then 1 else 0
  }

  /** A year after the group's first: both frames of the test are non-empty
      and the flag is the outcome of the test. */
  lemma FlagForTest(g: seq<Obs>, y: int)
    requires y in YearsOf(g) && y != MinOf(YearsOf(g))
    ensures Before(g, y) != [] && During(g, y) != []
    ensures FlagFor(g, y) == if Extreme(Mean(During(g, y)), Before(g, y)) then 1 else 0
  {
    var i :| 0 <= i < |g| && g[i].year == y;
    var j :| 0 <= j < |g| && g[j].year == MinOf(YearsOf(g));
    DuringNonEmpty(g, y, i);
    BeforeNonEmpty(g, y, j);
  }

  /** The entries of the years `ys` of one (element, month) group. */
  function YearEntries(g: seq<Obs>, c: Option<string>, e: string, m: int, ys: seq<int>): (r: seq<Entry>)
    requires forall k :: 0 <= k < |ys| ==> ys[k] in YearsOf(g)
    ensures |r| == |ys|
  {
    if ys == [] then []
    else YearEntries(g, c, e, m, ys[..|ys| - 1]) + [Entry(c, e, m, ys[|ys| - 1], FlagFor(g, ys[|ys| - 1]))]
  }

  /** Entry `k` is year `ys[k]` with its flag. */
  lemma {:induction false} YearEntriesAt(g: seq<Obs>, c: Option<string>, e: string, m: int, ys: seq<int>, k: int)
    requires forall k :: 0 <= k < |ys| ==> ys[k] in YearsOf(g)
    requires 0 <= k < |ys|
    ensures YearEntries(g, c, e, m, ys)[k] == Entry(c, e, m, ys[k], FlagFor(g, ys[k]))
  {
    if k < |ys| - 1 {
      YearEntriesAt(g, c, e, m, ys[..|ys| - 1], k);
    }
  }

  lemma YearEntriesSnoc(g: seq<Obs>, c: Option<string>, e: string, m: int, ys: seq<int>, i: int)
    requires forall k :: 0 <= k < |ys| ==> ys[k] in YearsOf(g)
    requires 0 <= i < |ys|
    ensures YearEntries(g, c, e, m, ys[..i + 1]) == YearEntries(g, c, e, m, ys[..i]) + [Entry(c, e, m, ys[i], FlagFor(g, ys[i]))]
  {
    assert ys[..i + 1][..i] == ys[..i];
  }

  /** The entries of one (element, month) group: one per distinct year, ascending. */
  function GroupEntries(g: seq<Obs>, c: Option<string>, e: string, m: int): seq<Entry>
  {
    var ys := Distinct(YearsOf(g));
    DistinctShape(YearsOf(g));
    YearEntries(g, c, e, m, ys)
  }

  lemma GroupEntriesAt(g: seq<Obs>, c: Option<string>, e: string, m: int)
    ensures var ys := Distinct(YearsOf(g)); var r := GroupEntries(g, c, e, m);
      |r| == |ys| && (forall k :: 0 <= k < |ys| ==> ys[k] in YearsOf(g)) &&
      forall k :: 0 <= k < |r| ==> r[k] == Entry(c, e, m, ys[k], FlagFor(g, ys[k]))
  {
    var ys := Distinct(YearsOf(g));
    DistinctShape(YearsOf(g));
    forall k | 0 <= k < |ys|
      ensures GroupEntries(g, c, e, m)[k] == Entry(c, e, m, ys[k], FlagFor(g, ys[k]))
    {
      YearEntriesAt(g, c, e, m, ys, k);
    }
  }

  /** One (element, month) group yields one entry per distinct year, in
      ascending order of year, tagged with the country, element and month;
      the first entry is the group's first year, flagged 0. */
  lemma GroupEntriesYears(g: seq<Obs>, c: Option<string>, e: string, m: int)
    ensures var r := GroupEntries(g, c, e, m);
      (forall k :: 0 <= k < |r| ==>
        r[k].country == c && r[k].element == e && r[k].month == m && r[k].year in YearsOf(g)) &&
      (forall a, b :: 0 <= a < b < |r| ==> r[a].year < r[b].year) &&
      (forall i :: 0 <= i < |g| ==> exists k :: 0 <= k < |r| && r[k].year == g[i].year) &&
      (g == [] <==> r == []) &&
      (g != [] ==> r[0].year == MinOf(YearsOf(g)) && r[0].flag == 0)
  {
    var ys := Distinct(YearsOf(g));
    DistinctShape(YearsOf(g));
    GroupEntriesAt(g, c, e, m);
    var r := GroupEntries(g, c, e, m);
    forall i | 0 <= i < |g|
      ensures exists k :: 0 <= k < |r| && r[k].year == g[i].year
    {
      assert g[i].year in YearsOf(g);
      var k :| 0 <= k < |ys| && ys[k] == g[i].year;
      assert r[k].year == g[i].year;
    }
    if g != [] {
      assert g[0].year in YearsOf(g);
    }
  }

  /** Every year after the group's first is flagged 1 exactly when its mean
      is extreme against all strictly earlier years, and 0 otherwise. */
  lemma GroupEntriesFlags(g: seq<Obs>, c: Option<string>, e: string, m: int)
    ensures var r := GroupEntries(g, c, e, m);
      forall k :: 0 < k < |r| ==>
        Before(g, r[k].year) != [] && During(g, r[k].year) != [] &&
        (r[k].flag == 1 <==> Extreme(Mean(During(g, r[k].year)), Before(g, r[k].year))) &&
        (r[k].flag == 0 <==> !Extreme(Mean(During(g, r[k].year)), Before(g, r[k].year)))
  {
    var ys := Distinct(YearsOf(g));
    DistinctShape(YearsOf(g));
    GroupEntriesAt(g, c, e, m);
    var r := GroupEntries(g, c, e, m);
    forall k | 0 < k < |r|
      ensures Before(g, r[k].year) != [] && During(g, r[k].year) != [] &&
        (r[k].flag == 1 <==> Extreme(Mean(During(g, r[k].year)), Before(g, r[k].year))) &&
        (r[k].flag == 0 <==> !Extreme(Mean(During(g, r[k].year)), Before(g, r[k].year)))
    {
      assert ys[0] < ys[k];
      assert ys[k] in YearsOf(g);
      FlagForTest(g, ys[k]);
    }
  }

  /** The entries of the months `ms` of one element's frame. */
  function MonthEntries(df: seq<Obs>, c: Option<string>, e: string, ms: seq<int>): seq<Entry>
  {
    if ms == [] then []
    else
      var m := ms[|ms| - 1];
      MonthEntries(df, c, e, ms[..|ms| - 1]) + GroupEntries(OfMonth(df, m), c, e, m)
  }

  lemma MonthEntriesSnoc(df: seq<Obs>, c: Option<string>, e: string, ms: seq<int>, i: int)
    requires 0 <= i < |ms|
    ensures MonthEntries(df, c, e, ms[..i + 1]) == MonthEntries(df, c, e, ms[..i]) + GroupEntries(OfMonth(df, ms[i]), c, e, ms[i])
  {
    assert ms[..i + 1][..i] == ms[..i];
  }

  /** The element's years do not reach back to 1950 or forward to 2013. An
      empty frame is not skipped: its minimum and maximum are NaN, which
      compares false, and it has no months anyway. */
  predicate Skipped(df: seq<Obs>) {
    df != [] && (MinOf(YearsOf(df)) > 1950 || MaxOf(YearsOf(df)) < 2013)
  }

  function ElementEntries(rows: seq<Obs>, c: Option<string>, e: string): seq<Entry>
  {
    var df := OfElement(rows, e);
    if Skipped(df) then [] else MonthEntries(df, c, e, Distinct(MonthsOf(df)))
  }

  function ElementsEntries(rows: seq<Obs>, c: Option<string>, es: seq<string>): seq<Entry>
  {
    if es == [] then []
    else ElementsEntries(rows, c, es[..|es| - 1]) + ElementEntries(rows, c, es[|es| - 1])
  }

  lemma ElementsEntriesSnoc(rows: seq<Obs>, c: Option<string>, es: seq<string>, i: int)
    requires 0 <= i < |es|
    ensures ElementsEntries(rows, c, es[..i + 1]) == ElementsEntries(rows, c, es[..i]) + ElementEntries(rows, c, es[i])
  {
    assert es[..i + 1][..i] == es[..i];
  }

  /** Some record of `g` has the entry's element, month and year. */
  predicate FromRecord(x: Entry, g: seq<Obs>) {
    exists o :: o in g && o.element == x.element && o.month == x.month && o.year == x.year
  }

  lemma GroupEntriesFrom(df: seq<Obs>, c: Option<string>, e: string, m: int)
    requires forall o :: o in df ==> o.element == e
    ensures forall x :: x in GroupEntries(OfMonth(df, m), c, e, m) ==>
      x.country == c && x.element == e && x.month == m && 0 <= x.flag <= 1 && FromRecord(x, df)
  {
    var g := OfMonth(df, m);
    var ys := Distinct(YearsOf(g));
    var r := GroupEntries(g, c, e, m);
    GroupEntriesAt(g, c, e, m);
    forall x | x in r
      ensures x.country == c && x.element == e && x.month == m && 0 <= x.flag <= 1 && FromRecord(x, df)
    {
      var k :| 0 <= k < |r| && r[k] == x;
      var j :| 0 <= j < |g| && YearsOf(g)[j] == ys[k];
      assert g[j] in g;
    }
  }

  lemma {:induction false} MonthEntriesFrom(df: seq<Obs>, c: Option<string>, e: string, ms: seq<int>)
    requires forall o :: o in df ==> o.element == e
    ensures forall x :: x in MonthEntries(df, c, e, ms) ==>
      x.country == c && x.element == e && x.month in ms && 0 <= x.flag <= 1 && FromRecord(x, df)
  {
    if ms != [] {
      var m := ms[|ms| - 1];
      MonthEntriesFrom(df, c, e, ms[..|ms| - 1]);
      GroupEntriesFrom(df, c, e, m);
      assert MonthEntries(df, c, e, ms) == MonthEntries(df, c, e, ms[..|ms| - 1]) + GroupEntries(OfMonth(df, m), c, e, m);
      forall x | x in MonthEntries(df, c, e, ms[..|ms| - 1])
        ensures x.month in ms
      {
        assert x.month in ms[..|ms| - 1];
      }
    }
  }

  /** Every entry names one of the elements asked for and a month and year
      some record of that element has; it is flagged 0 or 1, and its
      element's years were not skipped. */
  lemma {:induction false} ElementsEntriesFrom(rows: seq<Obs>, c: Option<string>, es: seq<string>)
    ensures forall x :: x in ElementsEntries(rows, c, es) ==>
      x.country == c && x.element in es && 0 <= x.flag <= 1 && FromRecord(x, rows) &&
      !Skipped(OfElement(rows, x.element))
  {
    if es != [] {
      var e := es[|es| - 1];
      var df := OfElement(rows, e);
      ElementsEntriesFrom(rows, c, es[..|es| - 1]);
      forall x | x in ElementsEntries(rows, c, es[..|es| - 1])
        ensures x.element in es
      {
        assert x.element in es[..|es| - 1];
      }
      if !Skipped(df) {
        MonthEntriesFrom(df, c, e, Distinct(MonthsOf(df)));
        forall x | x in ElementEntries(rows, c, e)
          ensures FromRecord(x, rows)
        {
          var o :| o in df && o.element == x.element && o.month == x.month && o.year == x.year;
          assert o in rows;
        }
      }
    }
  }

  /** All records of one station: the source asserts there is exactly one. */
  predicate OneStation(rows: seq<Obs>) {
    rows != [] && forall i :: 0 <= i < |rows| ==> rows[i].station == rows[0].station
  }

  /** What `getStatistics` returns for one station's records, `c` being the
      country the station mapper gives for the station. */
  function Statistics(rows: seq<Obs>, c: Option<string>): (r: seq<Entry>)
    requires OneStation(rows)
    ensures forall x :: x in r ==> x.country == c && x.element in Elements && 0 <= x.flag <= 1
  {
    ElementsEntriesFrom(rows, c, Elements);
    ElementsEntries(rows, c, Elements)
  }

  /** Every entry of a station carries the station's country, one of the six
      elements, a month and year of some record of that element, and a flag
      of 0 or 1; an element whose frame neither reaches back to 1950 nor
      forward to 2013 contributes no entry. */
  lemma StatisticsEntries(rows: seq<Obs>, c: Option<string>)
    requires OneStation(rows)
    ensures forall x :: x in Statistics(rows, c) ==>
      x.country == c && x.element in Elements && 0 <= x.flag <= 1 && FromRecord(x, rows)
    ensures forall e :: Skipped(OfElement(rows, e)) ==> forall x :: x in Statistics(rows, c) ==> x.element != e
  {
    ElementsEntriesFrom(rows, c, Elements);
  }

  /** The two facts about the distinct years that the year loop needs. */
  lemma DistinctYears(years: seq<int>)
    ensures forall k :: 0 <= k < |Distinct(years)| ==> Distinct(years)[k] in years
    ensures Distinct(years) != [] ==> Distinct(years)[0] == MinOf(years)
  {
    DistinctShape(years);
  }

  /** The year loop of `getStatistics` for one (element, month) group. */
  method GroupStatistics(group: seq<Obs>, c: Option<string>, e: string, m: int) returns (entries: seq<Entry>)
    ensures entries == GroupEntries(group, c, e, m)
  {
    var years := YearsOf(group);
    var ys := Distinct(years);
    DistinctYears(years);
    entries := [];
    var yi := 0;
    while yi < |ys|
      invariant 0 <= yi <= |ys|
      invariant entries == YearEntries(group, c, e, m, ys[..yi])
    {
      var y := ys[yi];
      YearEntriesSnoc(group, c, e, m, ys, yi);
      var flag := 0;
      if y != ys[0] {
        FlagForTest(group, y);
        var lastYears := Before(group, y);
        var thisYear := During(group, y);
        var thisYearAvg := Mean(thisYear);
        if Extreme(thisYearAvg, lastYears) {
          flag := 1;
        }
      }
      assert flag == FlagFor(group, y);
      entries := entries + [Entry(c, e, m, y, flag)];
      yi := yi + 1;
    }
    assert ys[..yi] == ys;
  }

  /** The month loop of `getStatistics` for one element. */
  method ElementStatistics(rows: seq<Obs>, c: Option<string>, e: string) returns (entries: seq<Entry>)
    ensures entries == ElementEntries(rows, c, e)
  {
    entries := [];
    var df := OfElement(rows, e);
    if !Skipped(df) {
      var ms := Distinct(MonthsOf(df));
      var mi := 0;
      while mi < |ms|
        invariant 0 <= mi <= |ms|
        invariant entries == MonthEntries(df, c, e, ms[..mi])
      {
        var m := ms[mi];
        MonthEntriesSnoc(df, c, e, ms, mi);
        var more := GroupStatistics(OfMonth(df, m), c, e, m);
        entries := entries + more;
        mi := mi + 1;
      }
      assert ms[..mi] == ms;
    }
  }

  /** `getStatistics`: for each element, each month of its frame and each
      distinct year of that month, one entry. */
  method GetStatistics(rows: seq<Obs>, c: Option<string>) returns (newData: seq<Entry>)
    requires OneStation(rows)
    ensures newData == Statistics(rows, c)
  {
    newData := [];
    var ei := 0;
    while ei < |Elements|
      invariant 0 <= ei <= |Elements|
      invariant newData == ElementsEntries(rows, c, Elements[..ei])
    {
      ElementsEntriesSnoc(rows, c, Elements, ei);
      var more := ElementStatistics(rows, c, Elements[ei]);
      newData := newData + more;
      ei := ei + 1;
    }
    assert Elements[..ei] == Elements;
  }
}
