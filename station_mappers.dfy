/** The three lookup tables of lib/climateData.py that are filled from text
    files line by line: coordinates to country (`LatLon2Country`), station to
    country (`WeatherStationMapper`) and two-letter to three-letter country
    code and back (`CountryMapper2to3`). */
module StationMappers {
  import opened Wrappers
  import opened Text
  import opened Assoc
  import opened LineParsing
  import opened DoubleDicts

  const CoordinatesHeader := "Country,Latitude,Longitude"
  const FirstStationLine := "ACW00011604  17.1167  -61.7833   10.1    ST JOHNS COOLIDGE FLD"
  const GeoNamesHeader := "# GeoNames.org Country Information"
  /** The first line of the GeoNames file holding a country: the lines before
      are its comment preamble. */
  const FirstCodeLine := 51

  // ----- LatLon2Country -----

  /** `l.strip().split(',')`, then the country, latitude and longitude fields;
      a line with fewer than three fields raises an IndexError. */
  function CoordinateEntry(l: string): Option<((string, string), string)>
  {
    var fields := Split(Strip(l), ',');
    if |fields| < 3 then None else Some(((fields[1], fields[2]), fields[0]))
  }

  /** A line written as `country,lat,lon` reads back as that entry. */
  lemma CoordinateEntryJoin(country: string, lat: string, lon: string)
    requires ',' !in country && ',' !in lat && ',' !in lon
    requires country != "" && !IsSpace(country[0])
    requires lon != "" && !IsSpace(lon[|lon| - 1])
    ensures CoordinateEntry(country + [','] + lat + [','] + lon) == Some(((lat, lon), country))
  {
    var parts := [country, lat, lon];
    var l := country + [','] + lat + [','] + lon;
    assert Join(parts[2..], ',') == lon;
    assert Join(parts[1..], ',') == lat + [','] + lon;
    assert Join(parts, ',') == l;
    StripTrimmed(l);
    SplitJoin(parts, ',');
  }

  /** The entries the loop assigns, the file's first line being its header:
      `Err` for a wrong header or a short line. */
  function CoordinateEntries(lines: seq<string>): (r: Result<seq<((string, string), string)>>)
    ensures r.Err? ==> r.failure == AssertionFailed || r.failure == IndexOutOfRange
    ensures (lines == [] || Strip(lines[0]) != CoordinatesHeader) ==> r == Err(AssertionFailed)
    ensures r.Ok? ==> |r.value| == |lines| - 1
  {
    if lines == [] || Strip(lines[0]) != CoordinatesHeader then Err(AssertionFailed)
    else
      match ParseAll(lines[1..], CoordinateEntry)
      case None => Err(IndexOutOfRange)
      case Some(ps) => Ok(ps)
  }

  /** A later line with the same latitude and longitude overwrites an earlier
      one: a pair of coordinates maps to the country of the last line naming it. */
  lemma LatLonLastWins(m: map<(string, string), string>, lines: seq<string>, i: int)
    requires CoordinateEntries(lines).Ok? && 0 <= i < |CoordinateEntries(lines).value|
    requires LastFor(CoordinateEntries(lines).value, i, CoordinateEntries(lines).value[i].0)
    ensures var ps := CoordinateEntries(lines).value;
      CoordinateEntry(lines[i + 1]) == Some(ps[i]) &&
      ps[i].0 in Update(m, ps) && Update(m, ps)[ps[i].0] == ps[i].1
  {
    var ps := CoordinateEntries(lines).value;
    ParseAllShape(lines[1..], CoordinateEntry);
    assert lines[1..][i] == lines[i + 1];
    UpdateLast(m, ps, i, ps[i].0);
  }

  /** `LatLon2Country`: a dictionary from (latitude, longitude) text to country. */
  class LatLon2Country {
    var table: map<(string, string), string>

    /** `dict.__init__` with no extra arguments: empty. */
    constructor ()
      ensures table == map[]
    {
      table := map[];
    }

    /** `_loadData`: check the header, then assign `(lat, lon) -> country`
        for every further line. */
    method LoadData(lines: seq<string>) returns (r: Result<()>)
      modifies this
      ensures r.Ok? <==> CoordinateEntries(lines).Ok?
      ensures r.Err? ==> r.failure == CoordinateEntries(lines).failure
      ensures r.Ok? ==> table == Update(old(table), CoordinateEntries(lines).value)
    {
      if lines == [] || Strip(lines[0]) != CoordinatesHeader {
        return Err(AssertionFailed);
      }
      var rest := lines[1..];
      var i := 0;
      while i < |rest|
        invariant 0 <= i <= |rest|
        invariant ParseAll(rest[..i], CoordinateEntry).Some?
        invariant table == Update(old(table), ParseAll(rest[..i], CoordinateEntry).value)
      {
        ParseAllSnoc(rest, CoordinateEntry, i);
        var line := Split(Strip(rest[i]), ',');
        if |line| < 3 {
          ParseAllPrefixFails(rest, CoordinateEntry, i + 1);
          return Err(IndexOutOfRange);
        }
        var country := line[0];
        var lat := line[1];
        var lon := line[2];
        table := table[(lat, lon) := country];
        i := i + 1;
      }
      assert rest[..i] == rest;
      r := Ok(());
    }
  }

  // ----- WeatherStationMapper -----

  /** `line[:11].strip()`, `line[12:20].strip()` and `line[21:30].strip()`. */
  function StationName(line: string): string { Strip(Slice(line, 0, 11)) }
  function StationLatitude(line: string): string { Strip(Slice(line, 12, 20)) }
  function StationLongitude(line: string): string { Strip(Slice(line, 21, 30)) }

  predicate Located(latLon: map<(string, string), string>, line: string) {
    (StationLatitude(line), StationLongitude(line)) in latLon
  }

  /** The line registers station `s`. */
  predicate Registers(latLon: map<(string, string), string>, line: string, s: string) {
    StationName(line) == s && Located(latLon, line)
  }

  /** The assignment one line makes: none when its coordinate text is unknown. */
  function StationEntry(latLon: map<(string, string), string>, line: string): seq<(string, string)>
  {
    if Located(latLon, line)
    then [(StationName(line), latLon[(StationLatitude(line), StationLongitude(line))])]
    else []
  }

  /** The (station, country) assignments of the loop: one per line whose exact
      coordinate text is known, the other lines being skipped. */
  function StationEntries(latLon: map<(string, string), string>, lines: seq<string>): (ps: seq<(string, string)>)
    ensures |ps| <= |lines|
  {
    if lines == [] then []
    else StationEntries(latLon, lines[..|lines| - 1]) + StationEntry(latLon, lines[|lines| - 1])
  }

  lemma StationEntriesSnoc(latLon: map<(string, string), string>, lines: seq<string>, i: int)
    requires 0 <= i < |lines|
    ensures StationEntries(latLon, lines[..i + 1]) == StationEntries(latLon, lines[..i]) + StationEntry(latLon, lines[i])
  {
    assert lines[..i + 1][..i] == lines[..i];
  }

  /** Some assignment of `ps` is for station `s`. */
  predicate Assigns(ps: seq<(string, string)>, s: string) {
    exists i :: 0 <= i < |ps| && ps[i].0 == s
  }

  /** Some element of `xs` satisfies `p`. */
  predicate AnyOf<T>(xs: seq<T>, p: T -> bool) {
    exists j :: 0 <= j < |xs| && p(xs[j])
  }

  lemma AnyOfSnoc<T>(xs: seq<T>, p: T -> bool)
    requires xs != []
    ensures AnyOf(xs, p) <==> AnyOf(xs[..|xs| - 1], p) || p(xs[|xs| - 1])
  {
    var init := xs[..|xs| - 1];
    if AnyOf(xs, p) {
      var j :| 0 <= j < |xs| && p(xs[j]);
      if j < |init| {
        assert init[j] == xs[j];
      }
    }
    if AnyOf(init, p) {
      var j :| 0 <= j < |init| && p(init[j]);
      assert xs[j] == init[j];
    }
  }

  /** Whether a line registers station `s`. */
  function LineRegisters(latLon: map<(string, string), string>, s: string): string -> bool
  {
    line => Registers(latLon, line, s)
  }

  /** Some line of `lines` registers station `s`. */
  predicate SomeLineRegisters(latLon: map<(string, string), string>, lines: seq<string>, s: string) {
    AnyOf(lines, LineRegisters(latLon, s))
  }

  lemma SomeLineRegistersIff(latLon: map<(string, string), string>, lines: seq<string>, s: string)
    ensures SomeLineRegisters(latLon, lines, s) <==> exists j :: 0 <= j < |lines| && Registers(latLon, lines[j], s)
  {
    var p := LineRegisters(latLon, s);
    if SomeLineRegisters(latLon, lines, s) {
      var j :| 0 <= j < |lines| && p(lines[j]);
      assert Registers(latLon, lines[j], s);
    }
    if exists j :: 0 <= j < |lines| && Registers(latLon, lines[j], s) {
      var j :| 0 <= j < |lines| && Registers(latLon, lines[j], s);
      assert p(lines[j]);
    }
  }

  lemma AssignsConcat(a: seq<(string, string)>, b: seq<(string, string)>, s: string)
    ensures Assigns(a + b, s) <==> Assigns(a, s) || Assigns(b, s)
  {
    if Assigns(a + b, s) {
      var i :| 0 <= i < |a + b| && (a + b)[i].0 == s;
      if i >= |a| {
        assert b[i - |a|].0 == s;
      }
    }
    if Assigns(a, s) {
      var i :| 0 <= i < |a| && a[i].0 == s;
      assert (a + b)[i].0 == s;
    }
    if Assigns(b, s) {
      var i :| 0 <= i < |b| && b[i].0 == s;
      assert (a + b)[|a| + i].0 == s;
    }
  }

  lemma SomeLineSnoc(latLon: map<(string, string), string>, lines: seq<string>, s: string)
    requires lines != []
    ensures SomeLineRegisters(latLon, lines, s) <==>
      SomeLineRegisters(latLon, lines[..|lines| - 1], s) || Registers(latLon, lines[|lines| - 1], s)
  {
    AnyOfSnoc(lines, LineRegisters(latLon, s));
  }

  /** A station gets an assignment exactly when some located line names it. */
  lemma {:induction false} StationEntriesKeys(latLon: map<(string, string), string>, lines: seq<string>, s: string)
    ensures Assigns(StationEntries(latLon, lines), s) <==> SomeLineRegisters(latLon, lines, s)
  {
    if lines != [] {
      var init := lines[..|lines| - 1];
      var last := lines[|lines| - 1];
      StationEntriesKeys(latLon, init, s);
      AssignsConcat(StationEntries(latLon, init), StationEntry(latLon, last), s);
      SomeLineSnoc(latLon, lines, s);
      if Registers(latLon, last, s) {
        assert StationEntry(latLon, last)[0].0 == s;
      }
    }
  }

  /** Every assignment is the one a located line makes. */
  lemma {:induction false} StationEntriesSource(latLon: map<(string, string), string>, lines: seq<string>, i: int)
    requires 0 <= i < |StationEntries(latLon, lines)|
    ensures exists j :: 0 <= j < |lines| && StationEntry(latLon, lines[j]) == [StationEntries(latLon, lines)[i]]
  {
    var init := lines[..|lines| - 1];
    var ps := StationEntries(latLon, lines);
    var qs := StationEntries(latLon, init);
    assert ps == qs + StationEntry(latLon, lines[|lines| - 1]);
    if i < |qs| {
      StationEntriesSource(latLon, init, i);
      var j :| 0 <= j < |init| && StationEntry(latLon, init[j]) == [qs[i]];
      assert lines[j] == init[j];
    } else {
      assert StationEntry(latLon, lines[|lines| - 1]) == [ps[i]];
    }
  }

  /** A station is registered exactly when some line names it with known
      coordinates, and then maps to the country of one such line. */
  lemma StationRegistered(latLon: map<(string, string), string>, lines: seq<string>, s: string)
    ensures s in Update(map[], StationEntries(latLon, lines)) <==>
      exists j :: 0 <= j < |lines| && Registers(latLon, lines[j], s)
    ensures s in Update(map[], StationEntries(latLon, lines)) ==>
      exists j :: 0 <= j < |lines| && Registers(latLon, lines[j], s) &&
        Update(map[], StationEntries(latLon, lines))[s] == latLon[(StationLatitude(lines[j]), StationLongitude(lines[j]))]
  {
    var ps := StationEntries(latLon, lines);
    UpdateKeys(map[], ps, s);
    StationEntriesKeys(latLon, lines, s);
    SomeLineRegistersIff(latLon, lines, s);
    if s in Update(map[], ps) {
      var i0 :| 0 <= i0 < |ps| && ps[i0].0 == s;
      LastExists(ps, i0);
      var i :| LastFor(ps, i, s);
      UpdateLast(map[], ps, i, s);
      StationEntriesSource(latLon, lines, i);
      var j :| 0 <= j < |lines| && StationEntry(latLon, lines[j]) == [ps[i]];
      assert Registers(latLon, lines[j], s);
    }
  }

  /** `WeatherStationMapper`: station identifier to country. */
  class WeatherStationMapper {
    /** The coordinates table it consults, `self.LatLon2Country`. */
    const latLon: map<(string, string), string>
    var stations: map<string, string>

    constructor (latLon: map<(string, string), string>)
      ensures this.latLon == latLon && stations == map[]
    {
      this.latLon := latLon;
      stations := map[];
    }

    /** `_loadData`: the first line must be the list's known first station;
        then every line, the first included, registers its station when its
        coordinates are known. The result replaces the station table. */
    method LoadData(lines: seq<string>) returns (r: Result<()>)
      modifies this
      ensures lines == [] ==> r == Err(IndexOutOfRange)
      ensures lines != [] ==> (r.Ok? <==> Strip(lines[0]) == FirstStationLine)
      ensures r.Err? ==> lines == [] || r == Err(AssertionFailed)
      ensures r.Err? ==> stations == old(stations)
      ensures r.Ok? ==> stations == Update(map[], StationEntries(latLon, lines))
    {
      if lines == [] {
        return Err(IndexOutOfRange);
      }
      if Strip(lines[0]) != FirstStationLine {
        return Err(AssertionFailed);
      }
      var found: map<string, string> := map[];
      var i := 0;
      while i < |lines|
        invariant 0 <= i <= |lines|
        invariant found == Update(map[], StationEntries(latLon, lines[..i]))
      {
        StationEntriesSnoc(latLon, lines, i);
        var line := lines[i];
        var stationName := StationName(line);
        var lat := StationLatitude(line);
        var lon := StationLongitude(line);
        if (lat, lon) in latLon {
          assert StationEntry(latLon, line) == [(stationName, latLon[(lat, lon)])];
          UpdateSnoc(map[], StationEntries(latLon, lines[..i]), (stationName, latLon[(lat, lon)]));
          found := found[stationName := latLon[(lat, lon)]];
        } else {
          assert StationEntry(latLon, line) == [];
          assert StationEntries(latLon, lines[..i]) + [] == StationEntries(latLon, lines[..i]);
        }
        i := i + 1;
      }
      assert lines[..i] == lines;
      stations := found;
      r := Ok(());
    }

    /** `__call__` (and `station2country`): the station's country, or the
        missing-value sentinel for an unknown station. */
    function Call(station: string): (r: Option<string>)
      reads this
      ensures r.Some? <==> station in stations
      ensures r.Some? ==> r.value == stations[station]
    {
      if station in stations then Some(stations[station]) else None
    }
  }

  // ----- CountryMapper2to3 -----

  /** `line.split('\t')[0]` and `[1]`; fewer than two fields raise an IndexError. */
  function CodeEntry(line: string): Option<(string, string)>
  {
    var fields := Split(line, '\t');
    if |fields| < 2 then None else Some((fields[0], fields[1]))
  }

  /** A line of tab-separated fields reads back as its first two fields. */
  lemma CodeEntryJoin(fields: seq<string>)
    requires |fields| >= 2 && forall i :: 0 <= i < |fields| ==> '\t' !in fields[i]
    ensures CodeEntry(Join(fields, '\t')) == Some((fields[0], fields[1]))
  {
    SplitJoin(fields, '\t');
  }

  /** The pairs the loop inserts: those of the lines from `FirstCodeLine` on. */
  function CodeEntries(lines: seq<string>): (r: Result<seq<(string, string)>>)
    ensures r.Err? ==> r.failure == IndexOutOfRange || r.failure == AssertionFailed
    ensures lines == [] ==> r == Err(IndexOutOfRange)
    ensures lines != [] && Strip(lines[0]) != GeoNamesHeader ==> r == Err(AssertionFailed)
    ensures r.Ok? ==> |r.value| == if |lines| <= FirstCodeLine then 0 else |lines| - FirstCodeLine
  {
    if lines == [] then Err(IndexOutOfRange)
    else if Strip(lines[0]) != GeoNamesHeader then Err(AssertionFailed)
    else if |lines| <= FirstCodeLine then Ok([])
    else
      match ParseAll(lines[FirstCodeLine..], CodeEntry)
      case None => Err(IndexOutOfRange)
      case Some(ps) => Ok(ps)
  }

  /** Lines 1 to 50 are never read: two files that agree on the header and
      from line 51 on give the same pairs. */
  lemma CodePreambleIgnored(lines: seq<string>, other: seq<string>)
    requires |lines| == |other| && |lines| > 0 && lines[0] == other[0]
    requires |lines| > FirstCodeLine ==> lines[FirstCodeLine..] == other[FirstCodeLine..]
    ensures CodeEntries(lines) == CodeEntries(other)
  {
  }

  /** A code pair that no later line mentions maps both ways. */
  lemma CodePairBothWays(m: map<string, string>, lines: seq<string>, i: int)
    requires CodeEntries(lines).Ok? && 0 <= i < |CodeEntries(lines).value|
    requires var ps := CodeEntries(lines).value;
      forall j :: i < j < |ps| ==> ps[j].0 != ps[i].0 && ps[j].1 != ps[i].0 && ps[j].0 != ps[i].1 && ps[j].1 != ps[i].1
    ensures var ps := CodeEntries(lines).value;
      CodeEntry(lines[FirstCodeLine + i]) == Some(ps[i]) &&
      ps[i].0 in InsertAll(m, ps) && InsertAll(m, ps)[ps[i].0] == ps[i].1 &&
      ps[i].1 in InsertAll(m, ps) && InsertAll(m, ps)[ps[i].1] == ps[i].0
  {
    var ps := CodeEntries(lines).value;
    ParseAllShape(lines[FirstCodeLine..], CodeEntry);
    assert lines[FirstCodeLine..][i] == lines[FirstCodeLine + i];
    InsertAllForward(m, ps, i);
    InsertAllBackward(m, ps, i);
  }

  /** `CountryMapper2to3`: a `DoubleDict` of two- and three-letter codes. */
  class CountryMapper2to3 {
    var mapper: map<string, string>

    constructor ()
      ensures mapper == map[]
    {
      mapper := map[];
    }

    /** The body of `__init__` after opening the file: check the header, then
        `mapper[fields[0]] = fields[1]` for each line from `FirstCodeLine` on. */
    method Load(lines: seq<string>) returns (r: Result<()>)
      modifies this
      ensures r.Ok? <==> CodeEntries(lines).Ok?
      ensures r.Err? ==> r.failure == CodeEntries(lines).failure
      ensures r.Ok? ==> mapper == InsertAll(old(mapper), CodeEntries(lines).value)
    {
      if lines == [] {
        return Err(IndexOutOfRange);
      }
      if Strip(lines[0]) != GeoNamesHeader {
        return Err(AssertionFailed);
      }
      if |lines| <= FirstCodeLine {
        return Ok(());
      }
      var rest := lines[FirstCodeLine..];
      var i := 0;
      while i < |rest|
        invariant 0 <= i <= |rest|
        invariant ParseAll(rest[..i], CodeEntry).Some?
        invariant mapper == InsertAll(old(mapper), ParseAll(rest[..i], CodeEntry).value)
      {
        ParseAllSnoc(rest, CodeEntry, i);
        var fields := Split(rest[i], '\t');
        if |fields| < 2 {
          ParseAllPrefixFails(rest, CodeEntry, i + 1);
          return Err(IndexOutOfRange);
        }
        var countryCode2letters := fields[0];
        var countryCode3letters := fields[1];
        InsertAllSnoc(old(mapper), ParseAll(rest[..i], CodeEntry).value, (countryCode2letters, countryCode3letters));
        mapper := Insert(mapper, countryCode2letters, countryCode3letters);
        i := i + 1;
      }
      assert rest[..i] == rest;
      r := Ok(());
    }

    /** `__call__`: the other code of the pair, or `False` when unknown. */
    function Call(code: string): (r: Option<string>)
      reads this
      ensures r.Some? <==> code in mapper
      ensures r.Some? ==> r.value == mapper[code]
    {
      if code in mapper then Some(mapper[code]) else None
    }
  }
}
