/** `WeatherStation` of lib/climateData.py: the parser of one line of a NOAA
    GHCN-Daily `.dly` file (one station, one element, one month, 31 daily
    readings) and the loop that keeps the readings of interest. */
module WeatherStations {
  import opened Wrappers
  import opened Text

  /** The elements the climate index is built from. */
  const Elements: seq<string> := ["PRCP", "SNOW", "SNWD", "TMAX", "TMIN", "AWND"]

  /** The text of a missing daily value. */
  const Missing: string := "-9999"

  /** One parsed line: the monthly mean of the kept daily values, if any. */
  datatype Reading = Reading(station: string, year: int, month: int, element: string, value: Option<real>)

  // ----- the fixed-width layout -----

  /** Day `d`'s value occupies the five columns from `21 + 8(d-1)`. */
  function ValueStart(d: nat): (c: nat)
    requires 1 <= d <= 31
    ensures c == 21 + 8 * (d - 1) && 21 <= c <= 261
  {
    21 + 8 * (d - 1)
  }

  /** The slice day `d`'s quality flag is read from. Every day but three reads
      the one column six after its value starts; day 4 reads column 53 (the
      first column of day 5's value), and days 6 and 7 read the reversed slices
      `[69:68]` and `[77:76]`, which are always empty. */
  function FlagSlice(d: nat): (s: (nat, nat))
    requires 1 <= d <= 31
    ensures d !in {4, 6, 7} ==> s == (ValueStart(d) + 6, ValueStart(d) + 7)
  {
    if d == 4 then (53, 54)
    else if d == 6 then (69, 68)
    else if d == 7 then (77, 76)
    else (27 + 8 * (d - 1), 28 + 8 * (d - 1))
  }

  function DayValue(line: string, d: nat): string
    requires 1 <= d <= 31
  {
    Strip(Slice(line, ValueStart(d), ValueStart(d) + 5))
  }

  function DayFlag(line: string, d: nat): string
    requires 1 <= d <= 31
  {
    Strip(Slice(line, FlagSlice(d).0, FlagSlice(d).1))
  }

  /** The keep test on a day's (value, flag) texts. */
  predicate KeptDay(day: (string, string)) {
    day.1 == "" && day.0 != Missing
  }

  /** A daily value is kept when its quality flag is blank and it is not the
      missing-value marker. */
  predicate Kept(line: string, d: nat)
    requires 1 <= d <= 31
  {
    KeptDay((DayValue(line, d), DayFlag(line, d)))
  }

  /** The (value, flag) texts of the 31 days, in day order. */
  function Days(line: string): seq<(string, string)>
  {
    seq(31, i requires 0 <= i < 31 => (DayValue(line, i + 1), DayFlag(line, i + 1)))
  }

  lemma DaysAt(line: string)
    ensures |Days(line)| == 31
    ensures forall d :: 1 <= d <= 31 ==> Days(line)[d - 1] == (DayValue(line, d), DayFlag(line, d))
  {
  }

  /** The texts of the kept values, in day order. */
  function KeptTexts(ds: seq<(string, string)>): (ts: seq<string>)
    ensures |ts| <= |ds|
    ensures forall t :: t in ts ==> t != Missing
  {
    if ds == [] then []
    else KeptTexts(ds[..|ds| - 1]) + (if KeptDay(ds[|ds| - 1]) then [ds[|ds| - 1].0] else [])
  }

  /** The days from 1 to `n` (1-based positions in `ds`) whose texts pass the
      keep test, in ascending order. */
  function KeptDays(ds: seq<(string, string)>, n: nat): (days: seq<nat>)
    requires n <= |ds|
    ensures forall j :: 0 <= j < |days| ==> 1 <= days[j] <= n && KeptDay(ds[days[j] - 1])
  {
    if n == 0 then [] else KeptDays(ds, n - 1) + (if KeptDay(ds[n - 1]) then [n] else [])
  }

  /** Every kept day up to `n` is listed, and the days ascend. */
  lemma {:induction false} KeptDaysAll(ds: seq<(string, string)>, n: nat)
    requires n <= |ds|
    ensures forall d :: 1 <= d <= n && KeptDay(ds[d - 1]) ==> d in KeptDays(ds, n)
    ensures forall j, k :: 0 <= j < k < |KeptDays(ds, n)| ==> KeptDays(ds, n)[j] < KeptDays(ds, n)[k]
  {
    if n > 0 {
      KeptDaysAll(ds, n - 1);
    }
  }

  /** The value texts of the given days, in their order. */
  function DayTexts(ds: seq<(string, string)>, days: seq<nat>): seq<string>
    requires forall j :: 0 <= j < |days| ==> 1 <= days[j] <= |ds|
  {
    seq(|days|, j requires 0 <= j < |days| => ds[days[j] - 1].0)
  }

  /** The kept texts of the first `n` days are exactly the values of the days
      from 1 to `n` that pass the keep test, in day order. */
  lemma {:induction false} KeptTextsUpTo(ds: seq<(string, string)>, n: nat)
    requires n <= |ds|
    ensures KeptTexts(ds[..n]) == DayTexts(ds, KeptDays(ds, n))
  {
    if n > 0 {
      KeptTextsUpTo(ds, n - 1);
      assert ds[..n][..n - 1] == ds[..n - 1];
      DayTextsSnoc(ds, KeptDays(ds, n - 1), n);
    }
  }

  /** One more day, kept or not, extends the texts by its value or not at all. */
  lemma DayTextsSnoc(ds: seq<(string, string)>, days: seq<nat>, n: nat)
    requires 1 <= n <= |ds| && forall j :: 0 <= j < |days| ==> 1 <= days[j] <= |ds|
    ensures DayTexts(ds, days + (if KeptDay(ds[n - 1]) then [n] else [])) ==
      DayTexts(ds, days) + (if KeptDay(ds[n - 1]) then [ds[n - 1].0] else [])
  {
    if !KeptDay(ds[n - 1]) {
      assert days + [] == days;
    }
  }

  /** The texts `_readline` averages are exactly the values of the days 1..31
      of the line that pass the keep test, in day order. */
  lemma KeptTextsOfLine(line: string)
    ensures var days := KeptDays(Days(line), 31);
      var ts := KeptTexts(Days(line));
      |ts| == |days| &&
      (forall j :: 0 <= j < |days| ==> 1 <= days[j] <= 31 && Kept(line, days[j]) && ts[j] == DayValue(line, days[j])) &&
      (forall d :: 1 <= d <= 31 && Kept(line, d) ==> d in days) &&
      (forall j, k :: 0 <= j < k < |days| ==> days[j] < days[k])
  {
    var ds := Days(line);
    DaysAt(line);
    KeptTextsUpTo(ds, 31);
    KeptDaysAll(ds, 31);
    assert ds[..31] == ds;
  }

  /** `float(item)` for each kept text; the model reads the integer texts the
      format uses, and anything else is a ValueError. */
  function ParseValues(ts: seq<string>): (r: Result<seq<real>>)
    ensures r.Ok? ==> |r.value| == |ts|
    ensures r.Ok? <==> forall i :: 0 <= i < |ts| ==> ParseInt(ts[i]).Some?
    ensures r.Err? ==> r.failure == ValueInvalid
  {
    if ts == [] then Ok([])
    else match (ParseInt(ts[0]), ParseValues(ts[1..]))
      case (Some(v), Ok(vs)) => Ok([v as real] + vs)
      case _ => Err(ValueInvalid)
  }

  function Sum(xs: seq<real>): real
  {
    if xs == [] then 0.0 else Sum(xs[..|xs| - 1]) + xs[|xs| - 1]
  }

  /** `np.average`. */
  function Mean(xs: seq<real>): real
    requires xs != []
  {
    Sum(xs) / (|xs| as real)
  }

  lemma {:induction false} SumBounds(xs: seq<real>, lo: real, hi: real)
    requires forall i :: 0 <= i < |xs| ==> lo <= xs[i] <= hi
    ensures (|xs| as real) * lo <= Sum(xs) <= (|xs| as real) * hi
  {
    if xs != [] {
      SumBounds(xs[..|xs| - 1], lo, hi);
    }
  }

  /** The mean lies between any bounds of the values. */
  lemma MeanWithin(xs: seq<real>, lo: real, hi: real)
    requires xs != []
    requires forall i :: 0 <= i < |xs| ==> lo <= xs[i] <= hi
    ensures lo <= Mean(xs) <= hi
  {
    SumBounds(xs, lo, hi);
    QuotientWithin(Sum(xs), |xs| as real, lo, hi);
  }

  lemma QuotientWithin(s: real, n: real, lo: real, hi: real)
    requires n > 0.0 && n * lo <= s <= n * hi
    ensures lo <= s / n <= hi
  {
  }

  /** `_readline`: the fields at their fixed columns, then the mean of the kept
      daily values, or no value when none is kept. A year or month that is not
      an integer, and a kept value that is not one (such as the blank field of a
      line cut short), raise a ValueError. */
  function ReadLine(line: string): (r: Result<Reading>)
    ensures r.Err? ==> r.failure == ValueInvalid
  {
    var year := ParseInt(Strip(Slice(line, 11, 15)));
    var month := ParseInt(Strip(Slice(line, 15, 17)));
    if year.None? || month.None? then Err(ValueInvalid)
    else match ParseValues(KeptTexts(Days(line)))
      case Err(f) => Err(f)
      case Ok(vs) =>
        Ok(Reading(Strip(Slice(line, 0, 11)), year.value, month.value, Strip(Slice(line, 17, 21)),
                   if vs == [] then None else Some(Mean(vs))))
  }

  lemma {:induction false} KeptTextsEmpty(ds: seq<(string, string)>)
    ensures KeptTexts(ds) == [] <==> forall i :: 0 <= i < |ds| ==> !KeptDay(ds[i])
  {
    if ds != [] {
      KeptTextsEmpty(ds[..|ds| - 1]);
    }
  }

  /** A parsed line has no value exactly when no day is kept. */
  lemma ReadLineNoValue(line: string)
    requires ReadLine(line).Ok?
    ensures ReadLine(line).value.value.None? <==> forall d :: 1 <= d <= 31 ==> !Kept(line, d)
  {
    var ds := Days(line);
    DaysAt(line);
    KeptTextsEmpty(ds);
    assert ReadLine(line).value.value.None? <==> KeptTexts(ds) == [];
    if forall d :: 1 <= d <= 31 ==> !Kept(line, d) {
      forall i | 0 <= i < 31 ensures !KeptDay(ds[i]) {
        assert !Kept(line, i + 1);
      }
    }
  }

  /** A parsed line's value lies between any bounds of its kept daily values. */
  lemma ReadLineValueWithin(line: string, lo: real, hi: real)
    requires ReadLine(line).Ok? && ReadLine(line).value.value.Some?
    requires forall d :: 1 <= d <= 31 && Kept(line, d) && ParseInt(DayValue(line, d)).Some? ==>
      lo <= ParseInt(DayValue(line, d)).value as real <= hi
    ensures lo <= ReadLine(line).value.value.value <= hi
  {
    var ts := KeptTexts(Days(line));
    var vs := ParseValues(ts).value;
    ParseValuesNth(ts);
    KeptTextsOfLine(line);
    var days := KeptDays(Days(line), 31);
    forall i | 0 <= i < |vs| ensures lo <= vs[i] <= hi {
      assert ts[i] == DayValue(line, days[i]);
    }
    MeanWithin(vs, lo, hi);
  }

  lemma {:induction false} ParseValuesNth(ts: seq<string>)
    requires ParseValues(ts).Ok?
    ensures forall i :: 0 <= i < |ts| ==> ParseValues(ts).value[i] == ParseInt(ts[i]).value as real
  {
    if ts != [] {
      ParseValuesNth(ts[1..]);
      assert forall i :: 1 <= i < |ts| ==> ts[i] == ts[1..][i - 1];
    }
  }

  /** Days 6 and 7 are never quality-filtered: their flag slices are empty, so
      they are kept whenever their value is not the missing marker. */
  lemma FlagsOfDaysSixAndSevenIgnored(line: string)
    ensures Kept(line, 6) <==> DayValue(line, 6) != Missing
    ensures Kept(line, 7) <==> DayValue(line, 7) != Missing
  {
    assert DayFlag(line, 6) == "";
    assert DayFlag(line, 7) == "";
  }

  /** Day 4's flag is read from the first column of day 5's value: when day 5
      is the missing marker, day 4 is dropped whatever its own flag says. */
  lemma DayFourDroppedWhenDayFiveMissing(line: string)
    requires 58 <= |line| && line[53..58] == Missing
    ensures DayValue(line, 5) == Missing
    ensures !Kept(line, 4)
  {
    assert line[53] == line[53..58][0];
    assert Slice(line, 53, 54) == line[53..54] == ['-'];
    assert Slice(line, 53, 58) == Missing;
    StripTrimmed(Missing);
    StripTrimmed(['-']);
    assert DayFlag(line, 4) == ['-'];
  }

  /** A line too short to hold day 31's value raises a ValueError, because
      the blank value is kept and is not a number. */
  lemma ShortLineRejected(line: string)
    requires |line| <= ValueStart(31)
    ensures ReadLine(line).Err?
  {
    assert Slice(line, ValueStart(31), ValueStart(31) + 5) == "";
    assert Slice(line, FlagSlice(31).0, FlagSlice(31).1) == "";
    assert DayValue(line, 31) == "" && DayFlag(line, 31) == "";
    var ds := Days(line);
    DaysAt(line);
    assert ds[30] == ("", "");
    assert ds == ds[..30] + [ds[30]];
    assert KeptTexts(ds) == KeptTexts(ds[..30]) + [""];
    var ts := KeptTexts(ds);
    assert ParseInt(ts[|ts| - 1]).None?;
    assert ParseValues(ts).Err?;
  }

  // ----- _load -----

  /** One record of a station's frame. */
  datatype Row = Row(station: string, country: Option<string>, year: int, month: int, element: string, value: Option<real>)

  /** `f` applied to every element, in order. */
  function Mapped<A, B>(f: A -> B, xs: seq<A>): (ys: seq<B>)
    ensures |ys| == |xs|
  {
    seq(|xs|, i requires 0 <= i < |xs| => f(xs[i]))
  }

  lemma MappedAt<A, B>(f: A -> B, xs: seq<A>, i: nat)
    requires i < |xs|
    ensures Mapped(f, xs)[i] == f(xs[i])
  {
  }

  lemma MappedPrefix<A, B>(f: A -> B, xs: seq<A>, i: nat)
    requires i < |xs|
    ensures Mapped(f, xs[..i + 1]) == Mapped(f, xs[..i]) + [f(xs[i])]
  {
    assert forall j :: 0 <= j < i ==> xs[..i + 1][j] == xs[..i][j];
  }

  /** The parse of every line, in line order. */
  function Parsed(lines: seq<string>): (ps: seq<Result<Reading>>)
    ensures |ps| == |lines|
  {
    Mapped(ReadLine, lines)
  }

  predicate AllParsed(ps: seq<Result<Reading>>) {
    forall i :: 0 <= i < |ps| ==> ps[i].Ok?
  }

  /** The readings of parses that all succeeded. */
  function Values(ps: seq<Result<Reading>>): (rds: seq<Reading>)
    requires AllParsed(ps)
    ensures |rds| == |ps|
  {
    seq(|ps|, i requires 0 <= i < |ps| => ps[i].value)
  }

  /** A line that parses extends the readings by its own; the parses of a
      longer prefix add the parse of the next line. */
  lemma ParsedStep(ps: seq<Result<Reading>>, p: Result<Reading>)
    requires AllParsed(ps) && p.Ok?
    ensures AllParsed(ps + [p]) && Values(ps + [p]) == Values(ps) + [p.value]
  {
    assert forall j :: 0 <= j < |ps| ==> (ps + [p])[j] == ps[j];
  }

  lemma ParsedPrefix(lines: seq<string>, i: nat)
    requires i < |lines|
    ensures Parsed(lines[..i + 1]) == Parsed(lines[..i]) + [ReadLine(lines[i])]
  {
    MappedPrefix(ReadLine, lines, i);
  }

  /** One more parsed line adds its record when it is wanted. */
  lemma KeptStep(ps: seq<Result<Reading>>, p: Result<Reading>, years: (int, int), country: Option<string>)
    requires AllParsed(ps) && p.Ok?
    ensures AllParsed(ps + [p]) && Values(ps + [p]) == Values(ps) + [p.value]
    ensures KeptRows(Values(ps + [p]), years, country) ==
      KeptRows(Values(ps), years, country) + (if Wanted(p.value, years) then [RowOf(p.value, country)] else [])
  {
    ParsedStep(ps, p);
    var v := Values(ps + [p]);
    assert v[..|v| - 1] == Values(ps);
  }

  /** The reading is in the year window (both ends included), of a listed
      element, and has a value. */
  predicate Wanted(rd: Reading, years: (int, int)) {
    years.0 <= rd.year <= years.1 && rd.element in Elements && rd.value.Some?
  }

  function RowOf(rd: Reading, country: Option<string>): Row {
    Row(rd.station, country, rd.year, rd.month, rd.element, rd.value)
  }

  /** The records of the wanted readings, in line order. */
  function KeptRows(rds: seq<Reading>, years: (int, int), country: Option<string>): seq<Row>
  {
    if rds == [] then []
    else
      var last := if Wanted(rds[|rds| - 1], years) then [RowOf(rds[|rds| - 1], country)] else [];
      KeptRows(rds[..|rds| - 1], years, country) + last
  }

  /** What `_load` gives from the parses of the lines: a ValueError when a
      line does not parse; otherwise the kept records or, when none is kept,
      one record without a value carrying the fields of the last line read. An
      empty file leaves those fields unbound. */
  function LoadFrom(ps: seq<Result<Reading>>, years: (int, int), country: Option<string>): (r: Result<seq<Row>>)
    ensures r.Err? <==> !AllParsed(ps) || ps == []
  {
    if !AllParsed(ps) then Err(ValueInvalid)
    else if ps == [] then Err(NameUnbound)
    else
      var rows := KeptRows(Values(ps), years, country);
      if rows == [] then
        var l := ps[|ps| - 1].value;
        Ok([Row(l.station, country, l.year, l.month, l.element, None)])
      else Ok(rows)
  }

  function LoadOf(lines: seq<string>, years: (int, int), country: Option<string>): Result<seq<Row>>
  {
    LoadFrom(Parsed(lines), years, country)
  }

  /** A record is kept iff it comes from a wanted reading. */
  lemma {:induction false} KeptRowsIff(rds: seq<Reading>, years: (int, int), country: Option<string>, x: Row)
    ensures x in KeptRows(rds, years, country) <==>
      exists j :: 0 <= j < |rds| && Wanted(rds[j], years) && x == RowOf(rds[j], country)
  {
    if rds != [] {
      var init := rds[..|rds| - 1];
      KeptRowsIff(init, years, country, x);
      if exists j :: 0 <= j < |init| && Wanted(init[j], years) && x == RowOf(init[j], country) {
        var j :| 0 <= j < |init| && Wanted(init[j], years) && x == RowOf(init[j], country);
        assert rds[j] == init[j];
      }
      if exists j :: 0 <= j < |rds| && Wanted(rds[j], years) && x == RowOf(rds[j], country) {
        var j :| 0 <= j < |rds| && Wanted(rds[j], years) && x == RowOf(rds[j], country);
        if j < |init| {
          assert init[j] == rds[j];
        }
      }
    }
  }

  lemma {:induction false} KeptRowsEmpty(rds: seq<Reading>, years: (int, int), country: Option<string>)
    ensures KeptRows(rds, years, country) == [] <==> forall j :: 0 <= j < |rds| ==> !Wanted(rds[j], years)
  {
    if rds != [] {
      KeptRowsEmpty(rds[..|rds| - 1], years, country);
    }
  }

  /** When some line is wanted, the records are exactly those of the wanted
      lines: each lies in the year window, names a listed element and has a value. */
  lemma LoadKeepsWanted(ps: seq<Result<Reading>>, years: (int, int), country: Option<string>, x: Row)
    requires LoadFrom(ps, years, country).Ok?
    requires exists j :: 0 <= j < |ps| && Wanted(ps[j].value, years)
    ensures x in LoadFrom(ps, years, country).value <==>
      exists j :: 0 <= j < |ps| && Wanted(ps[j].value, years) && x == RowOf(ps[j].value, country)
    ensures x in LoadFrom(ps, years, country).value ==>
      years.0 <= x.year <= years.1 && x.element in Elements && x.value.Some? && x.country == country
  {
    var rds := Values(ps);
    var j0 :| 0 <= j0 < |ps| && Wanted(ps[j0].value, years);
    assert Wanted(rds[j0], years);
    KeptRowsEmpty(rds, years, country);
    KeptRowsIff(rds, years, country, x);
    if x in LoadFrom(ps, years, country).value {
      var j :| 0 <= j < |rds| && Wanted(rds[j], years) && x == RowOf(rds[j], country);
      assert ps[j].value == rds[j];
    }
    if exists j :: 0 <= j < |ps| && Wanted(ps[j].value, years) && x == RowOf(ps[j].value, country) {
      var j :| 0 <= j < |ps| && Wanted(ps[j].value, years) && x == RowOf(ps[j].value, country);
      assert rds[j] == ps[j].value;
    }
  }

  /** When every line parses and none is wanted, the frame is the single
      placeholder record without a value, taken from the last line. */
  lemma LoadPlaceholder(ps: seq<Result<Reading>>, years: (int, int), country: Option<string>)
    requires AllParsed(ps) && ps != []
    requires forall j :: 0 <= j < |ps| ==> !Wanted(ps[j].value, years)
    ensures var last := ps[|ps| - 1].value;
      LoadFrom(ps, years, country) == Ok([Row(last.station, country, last.year, last.month, last.element, None)])
  {
    var rds := Values(ps);
    KeptRowsEmpty(rds, years, country);
  }

  /** A file without lines leaves the placeholder's fields unbound, and a line
      that does not parse raises a ValueError. */
  lemma LoadErrors(lines: seq<string>, years: (int, int), country: Option<string>, i: nat)
    ensures LoadOf([], years, country) == Err(NameUnbound)
    ensures i < |lines| && ReadLine(lines[i]).Err? ==> LoadOf(lines, years, country) == Err(ValueInvalid)
  {
    if i < |lines| && ReadLine(lines[i]).Err? {
      MappedAt(ReadLine, lines, i);
      assert !Parsed(lines)[i].Ok?;
    }
  }

  /** The record without a value that `_load` stores when no line is wanted. */
  function Placeholder(rd: Reading, country: Option<string>): Row
  {
    Row(rd.station, country, rd.year, rd.month, rd.element, None)
  }

  /** The state of `_load`'s loop after the first `i` lines: their parses all
      succeeded, `rows` holds the records of the wanted ones, and `last` is the
      reading of the line read last. */
  ghost predicate Scanned(lines: seq<string>, i: nat, ps: seq<Result<Reading>>, rows: seq<Row>,
                          last: Option<Reading>, years: (int, int), country: Option<string>)
  {
    i <= |lines| && ps == Parsed(lines[..i]) && AllParsed(ps) && rows == KeptRows(Values(ps), years, country) &&
    last == (if i == 0 then None else Some(ps[i - 1].value))
  }

  lemma ScannedStep(lines: seq<string>, i: nat, ps: seq<Result<Reading>>, rows: seq<Row>, last: Option<Reading>,
                    years: (int, int), country: Option<string>, rd: Result<Reading>)
    requires Scanned(lines, i, ps, rows, last, years, country)
    requires i < |lines| && rd == ReadLine(lines[i]) && rd.Ok?
    ensures Scanned(lines, i + 1, ps + [rd], rows + (if Wanted(rd.value, years) then [RowOf(rd.value, country)] else []),
                    Some(rd.value), years, country)
  {
    ParsedPrefix(lines, i);
    KeptStep(ps, rd, years, country);
  }

  lemma ScannedDone(lines: seq<string>, ps: seq<Result<Reading>>, rows: seq<Row>, last: Option<Reading>,
                    years: (int, int), country: Option<string>)
    requires Scanned(lines, |lines|, ps, rows, last, years, country)
    ensures last.None? <==> lines == []
    ensures last.Some? ==> Parsed(lines)[|lines| - 1] == Ok(last.value)
    ensures last.Some? ==> LoadOf(lines, years, country) == Ok(if rows == [] then [Placeholder(last.value, country)] else rows)
  {
    assert lines[..|lines|] == lines;
  }

  /** A weather station and the records read from its file. */
  class WeatherStation {
    var stationID: Option<string>
    const years: (int, int)
    const country: Option<string>
    var data: seq<Row>

    constructor (years: (int, int), country: Option<string>)
      ensures stationID == None && this.years == years && this.country == country && data == []
    {
      stationID := None;
      this.years := years;
      this.country := country;
      data := [];
    }

    /** `_load`, as its result is stored in `data`: each line is parsed, and
        `stationID` follows the station of the line last read. */
    method Load(lines: seq<string>) returns (r: Result<()>)
      modifies this
      ensures r.Ok? <==> LoadOf(lines, years, country).Ok?
      ensures r.Err? ==> r.failure == LoadOf(lines, years, country).failure && data == old(data)
      ensures r.Ok? ==> data == LoadOf(lines, years, country).value
      ensures r.Ok? ==> stationID == Some(Parsed(lines)[|lines| - 1].value.station)
    {
      var rows: seq<Row> := [];
      ghost var ps: seq<Result<Reading>> := [];
      var last: Option<Reading> := None;
      var i := 0;
      while i < |lines|
        invariant Scanned(lines, i, ps, rows, last, years, country)
        invariant last.Some? ==> stationID == Some(last.value.station)
        invariant data == old(data)
      {
        var rd := ReadLine(lines[i]);
        if rd.Err? {
          LoadErrors(lines, years, country, i);
          return Err(ValueInvalid);
        }
        ScannedStep(lines, i, ps, rows, last, years, country, rd);
        stationID := Some(rd.value.station);
        if Wanted(rd.value, years) {
          rows := rows + [RowOf(rd.value, country)];
        }
        last := Some(rd.value);
        ps := ps + [rd];
        i := i + 1;
      }
      ScannedDone(lines, ps, rows, last, years, country);
      if last.None? {
        LoadErrors(lines, years, country, 0);
        return Err(NameUnbound);
      }
      if rows == [] {
        var l := last.value;
        rows := [Row(l.station, country, l.year, l.month, l.element, None)];
      }
      data := rows;
      return Ok(());
    }
  }
}
