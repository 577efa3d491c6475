/** The cleaning rules of `UNHCRdata._loadData` (lib/unhcrData.py:44-111):
    the year cut, redacted cells, the "Various/Unknown" bucket, the group sum on
    (Year, Country, Origin) and the final country mapping. The country mapper
    is a parameter: `None` stands for its `False` answer. */
module UnhcrData {
  import opened Wrappers
  import opened Text
  import DataContainer

  /** Rows before this year are dropped first. */
  const YearLimit := 1980

  /** The marker of a confidential figure. */
  const Redacted := "*"

  /** What an unknown destination or origin becomes. */
  const Bucket := "Various/Unknown"

  /** What `convert` yields for a name the mapper does not understand: the
      `False` it returns, as text. */
  const NotUnderstood := "False"

  /** A row of the export as read with every column but Year as text: the
      year, then the destination, origin and each count column, where `None`
      is a blank cell, which `read_csv` leaves as NaN. */
  datatype RawRow = RawRow(year: int, country: Option<string>, origin: Option<string>, counts: seq<Option<string>>)

  /** A row once redacted cells are missing and counts are numbers. */
  datatype Row = Row(year: int, country: Option<string>, origin: Option<string>, counts: seq<Option<real>>)

  /** A row of the result: its group key and the sum of each count column. */
  datatype Summed = Summed(year: int, country: string, origin: string, sums: seq<Option<real>>)

  /** `data[data["Year"] >= 1980]`. */
  function Recent(rows: seq<RawRow>): (r: seq<RawRow>)
    ensures forall x :: x in r <==> x in rows && x.year >= YearLimit
    ensures |r| <= |rows|
  {
    if rows == [] then []
    else
      var last := rows[|rows| - 1];
      Recent(rows[..|rows| - 1]) + (if last.year >= YearLimit then [last] else [])
  }

  /** `replace("*", NaN)` on one cell: a `*` cell becomes missing, a blank
      cell stays missing, and any other cell is kept. */
  function Redact(cell: Option<string>): (r: Option<string>)
    ensures r.None? <==> cell.None? || cell.value == Redacted
    ensures r.Some? ==> r == cell
  {
    if cell == Some(Redacted) then None else cell
  }

  /** `astype(float)` on one count cell: a missing cell stays missing, an
      integer text is converted, anything else is a ValueError. */
  function ToFloat(cell: Option<string>): (r: Result<Option<real>>)
    ensures cell.None? ==> r == Ok(None)
    ensures cell.Some? ==> (r.Ok? <==> ParseInt(cell.value).Some?)
    ensures cell.Some? && r.Ok? ==> r.value == Some(ParseInt(cell.value).value as real)
  {
    match cell
    case None => Ok(None)
    case Some(s) =>
      match ParseInt(s)
      case None => Err(ValueInvalid)
      case Some(n) => Ok(Some(n as real))
  }

  /** The count cells of a row converted, or the first ValueError. */
  function ToFloats(cells: seq<Option<string>>): (r: Result<seq<Option<real>>>)
    ensures r.Ok? ==> |r.value| == |cells|
    ensures r.Ok? ==> forall j :: 0 <= j < |cells| ==> ToFloat(Redact(cells[j])) == Ok(r.value[j])
    ensures r.Err? <==> exists j :: 0 <= j < |cells| && ToFloat(Redact(cells[j])).Err?
  {
    if cells == [] then Ok([])
    else
      var last := cells[|cells| - 1];
      match ToFloats(cells[..|cells| - 1])
      case Err(e) => Err(e)
      case Ok(vs) =>
        match ToFloat(Redact(last))
        case Err(e) => Err(e)
        case Ok(v) => Ok(vs + [v])
  }

  /** Redaction on every cell of a row, then conversion of its counts. */
  function CleanRow(row: RawRow): (r: Result<Row>)
    ensures r.Ok? ==> r.value.year == row.year && |r.value.counts| == |row.counts|
    ensures r.Ok? ==> r.value.country == Redact(row.country) && r.value.origin == Redact(row.origin)
  {
    match ToFloats(row.counts)
    case Err(e) => Err(e)
    case Ok(vs) => Ok(Row(row.year, Redact(row.country), Redact(row.origin), vs))
  }

  function CleanRows(rows: seq<RawRow>): (r: Result<seq<Row>>)
    ensures r.Ok? ==> |r.value| == |rows|
    ensures r.Ok? ==> forall i :: 0 <= i < |rows| ==> CleanRow(rows[i]) == Ok(r.value[i])
    ensures r.Err? <==> exists i :: 0 <= i < |rows| && CleanRow(rows[i]).Err?
  {
    if rows == [] then Ok([])
    else
      match CleanRows(rows[..|rows| - 1])
      case Err(e) => Err(e)
      case Ok(done) =>
        match CleanRow(rows[|rows| - 1])
        case Err(e) => Err(e)
        case Ok(row) => Ok(done + [row])
  }

  /** `data.columns = ["Year", "Country"] + data.columns[2:]`: the first two
      columns renamed, the others kept in order; a table with fewer than two
      columns gets a list of the wrong length, a ValueError. */
  function Renamed(columns: seq<string>): (r: Result<seq<string>>)
    ensures r.Err? <==> |columns| < 2
    ensures r.Ok? ==> |r.value| == |columns| && r.value[0] == "Year" && r.value[1] == "Country"
    ensures r.Ok? ==> forall j :: 2 <= j < |columns| ==> r.value[j] == columns[j]
  {
    if |columns| < 2 then Err(ValueInvalid) else Ok(["Year", "Country"] + columns[2..])
  }

  /** The destination or origin after the overwrite: kept when the mapper
      understands it, "Various/Unknown" otherwise (a missing cell included). */
  function Bucketed(cell: Option<string>, country: string -> Option<string>): (name: string)
    ensures name == Bucket || (cell.Some? && name == cell.value && country(name).Some?)
    ensures cell.Some? && country(cell.value).Some? ==> name == cell.value
  {
    if cell.Some? && country(cell.value).Some? then cell.value else Bucket
  }

  /** The group key of a cleaned row. */
  function KeyOf(row: Row, country: string -> Option<string>): (int, string, string)
  {
    (row.year, Bucketed(row.country, country), Bucketed(row.origin, country))
  }

  /** The distinct keys in order of first appearance. */
  function Keys(rows: seq<Row>, country: string -> Option<string>): (ks: seq<(int, string, string)>)
    ensures forall k :: k in ks <==> exists i :: 0 <= i < |rows| && KeyOf(rows[i], country) == k
    ensures forall i, j :: 0 <= i < j < |ks| ==> ks[i] != ks[j]
    ensures |ks| <= |rows|
  {
    if rows == [] then []
    else
      var init := Keys(rows[..|rows| - 1], country);
      var k := KeyOf(rows[|rows| - 1], country);
      init + (if k in init then [] else [k])
  }

  /** Column `j` of the rows in the group of `key`. */
  function GroupColumn(rows: seq<Row>, key: (int, string, string), j: nat, country: string -> Option<string>): (vs: seq<Option<real>>)
    requires forall i :: 0 <= i < |rows| ==> j < |rows[i].counts|
    ensures |vs| <= |rows|
  {
    if rows == [] then []
    else
      var last := rows[|rows| - 1];
      GroupColumn(rows[..|rows| - 1], key, j, country) + (if KeyOf(last, country) == key then [last.counts[j]] else [])
  }

  /** `groupby(["Year", "Country", "Origin"]).agg([np.sum])`: one row per key,
      each count column summed over the key's rows, missing values skipped. */
  function GroupSum(rows: seq<Row>, width: nat, country: string -> Option<string>): (ts: seq<Summed>)
    requires forall i :: 0 <= i < |rows| ==> |rows[i].counts| == width
    ensures |ts| == |Keys(rows, country)|
    ensures forall i :: 0 <= i < |ts| ==>
      (ts[i].year, ts[i].country, ts[i].origin) == Keys(rows, country)[i] && |ts[i].sums| == width
  {
    var ks := Keys(rows, country);
    seq(|ks|, i requires 0 <= i < |ks| =>
      Summed(ks[i].0, ks[i].1, ks[i].2,
        seq(width, j requires 0 <= j < width => DataContainer.Aggregate(DataContainer.Sum, GroupColumn(rows, ks[i], j, country)))))
  }

  /** `mapper.convert` on one name. */
  function Convert(name: string, country: string -> Option<string>): string
  {
    if country(name).Some? then country(name).value else NotUnderstood
  }

  /** `_loadData` once the CSV is read: year cut, redaction and conversion,
      bucketing, group sum, and the destination and origin mapped to codes.
      Every row is assumed to have `width` count columns. */
  function Load(rows: seq<RawRow>, width: nat, country: string -> Option<string>): (r: Result<seq<Summed>>)
    requires forall i :: 0 <= i < |rows| ==> |rows[i].counts| == width
    ensures r.Err? <==> CleanRows(Recent(rows)).Err?
    ensures r.Ok? ==> var ks := Keys(CleanRows(Recent(rows)).value, country);
      |r.value| == |ks| && forall i :: 0 <= i < |ks| ==>
        r.value[i].year == ks[i].0 && r.value[i].country == Convert(ks[i].1, country) &&
        r.value[i].origin == Convert(ks[i].2, country) && |r.value[i].sums| == width
  {
    match CleanRows(Recent(rows))
    case Err(e) => Err(e)
    case Ok(clean) =>
      var ts := GroupSum(clean, width, country);
      Ok(seq(|ts|, i requires 0 <= i < |ts| =>
        Summed(ts[i].year, Convert(ts[i].country, country), Convert(ts[i].origin, country), ts[i].sums)))
  }

  /** Each count column of a loaded row is that column summed over the
      cleaned recent rows of the row's (Year, Country, Origin) key. */
  lemma LoadSum(rows: seq<RawRow>, width: nat, country: string -> Option<string>, i: nat, j: nat)
    requires forall n :: 0 <= n < |rows| ==> |rows[n].counts| == width
    requires Load(rows, width, country).Ok?
    requires i < |Load(rows, width, country).value| && j < width
    ensures var clean := CleanRows(Recent(rows)).value;
      (forall n :: 0 <= n < |clean| ==> |clean[n].counts| == width) &&
      i < |Keys(clean, country)| &&
      Load(rows, width, country).value[i].sums[j] ==
        DataContainer.Aggregate(DataContainer.Sum, GroupColumn(clean, Keys(clean, country)[i], j, country))
  {
    var recent := Recent(rows);
    var clean := CleanRows(recent).value;
    forall n | 0 <= n < |clean| ensures |clean[n].counts| == width {
      assert CleanRow(recent[n]) == Ok(clean[n]);
      assert recent[n] in recent;
    }
  }

  /** A ValueError exactly when a recent row holds a count that is neither
      blank, `*` nor a number; older rows are never converted. */
  lemma LoadFails(rows: seq<RawRow>, width: nat, country: string -> Option<string>)
    requires forall i :: 0 <= i < |rows| ==> |rows[i].counts| == width
    ensures Load(rows, width, country).Err? <==>
      exists x :: x in rows && x.year >= YearLimit && CleanRow(x).Err?
  {
    var recent := Recent(rows);
    if exists x :: x in rows && x.year >= YearLimit && CleanRow(x).Err? {
      var x :| x in rows && x.year >= YearLimit && CleanRow(x).Err?;
      var i :| 0 <= i < |recent| && recent[i] == x;
    }
  }

  /** Every result row is a group of recent rows: its year is from 1980 on, its
      destination and origin are the mapper's codes of understood names or the
      conversion of "Various/Unknown", and its sums have one entry per column. */
  lemma LoadShape(rows: seq<RawRow>, width: nat, country: string -> Option<string>)
    requires forall i :: 0 <= i < |rows| ==> |rows[i].counts| == width
    requires Load(rows, width, country).Ok?
    ensures forall t :: t in Load(rows, width, country).value ==>
      t.year >= YearLimit && |t.sums| == width &&
      (t.country == Convert(Bucket, country) || exists c :: country(c).Some? && t.country == country(c).value) &&
      (t.origin == Convert(Bucket, country) || exists c :: country(c).Some? && t.origin == country(c).value)
  {
    var r := Load(rows, width, country).value;
    var ks := Keys(CleanRows(Recent(rows)).value, country);
    forall t | t in r
      ensures t.year >= YearLimit && |t.sums| == width
      ensures t.country == Convert(Bucket, country) || exists c :: country(c).Some? && t.country == country(c).value
      ensures t.origin == Convert(Bucket, country) || exists c :: country(c).Some? && t.origin == country(c).value
    {
      var i :| 0 <= i < |r| && r[i] == t;
      RecentKey(rows, country, i);
      ConvertKey(ks[i].1, country);
      ConvertKey(ks[i].2, country);
    }
  }

  /** Each group key of the recent rows has a year from 1980 on and a
      destination and origin that are understood names or the bucket. */
  lemma RecentKey(rows: seq<RawRow>, country: string -> Option<string>, i: nat)
    requires CleanRows(Recent(rows)).Ok?
    requires i < |Keys(CleanRows(Recent(rows)).value, country)|
    ensures var k := Keys(CleanRows(Recent(rows)).value, country)[i];
      k.0 >= YearLimit && (k.1 == Bucket || country(k.1).Some?) && (k.2 == Bucket || country(k.2).Some?)
  {
    var recent := Recent(rows);
    var clean := CleanRows(recent).value;
    var ks := Keys(clean, country);
    assert ks[i] in ks;
    var n :| 0 <= n < |clean| && KeyOf(clean[n], country) == ks[i];
    assert CleanRow(recent[n]) == Ok(clean[n]);
    assert recent[n] in recent;
  }

  /** Converting an understood name or the bucket gives a mapper code or the
      bucket's conversion. */
  lemma ConvertKey(name: string, country: string -> Option<string>)
    requires name == Bucket || country(name).Some?
    ensures Convert(name, country) == Convert(Bucket, country) ||
      exists c :: country(c).Some? && Convert(name, country) == country(c).value
  {
    if name != Bucket {
      assert country(name).Some? && Convert(name, country) == country(name).value;
    }
  }

  /** `t` is the row of `key`, with the sums of its rows' count columns. */
  predicate SumsGroup(t: Summed, rows: seq<Row>, width: nat, key: (int, string, string), country: string -> Option<string>)
    requires forall i :: 0 <= i < |rows| ==> |rows[i].counts| == width
  {
    (t.year, t.country, t.origin) == key && |t.sums| == width &&
    forall j :: 0 <= j < width ==> t.sums[j] == DataContainer.Aggregate(DataContainer.Sum, GroupColumn(rows, key, j, country))
  }

  /** Each (Year, Country, Origin) key of the recent rows occurs exactly once
      before the final mapping, and its sums add up the count columns of
      exactly the rows of that key. */
  lemma GroupSumKeys(rows: seq<Row>, width: nat, country: string -> Option<string>, key: (int, string, string))
    requires forall i :: 0 <= i < |rows| ==> |rows[i].counts| == width
    requires exists i :: 0 <= i < |rows| && KeyOf(rows[i], country) == key
    ensures exists i :: 0 <= i < |GroupSum(rows, width, country)| && SumsGroup(GroupSum(rows, width, country)[i], rows, width, key, country)
    ensures forall i, j :: 0 <= i < j < |GroupSum(rows, width, country)| ==>
      GroupSum(rows, width, country)[i] != GroupSum(rows, width, country)[j]
  {
    var ks := Keys(rows, country);
    assert key in ks;
    var i :| 0 <= i < |ks| && ks[i] == key;
    var ts := GroupSum(rows, width, country);
    assert (ts[i].year, ts[i].country, ts[i].origin) == key;
  }

  /** A redacted figure, like a blank one, is missing, not zero: it adds
      nothing to a group's sum, and a group whose figures are all missing has
      a missing sum where a zero figure would give 0. */
  lemma RedactedIsMissing(vs: seq<Option<real>>)
    ensures ToFloat(Redact(Some(Redacted))) == Ok(None) && ToFloat(Redact(None)) == Ok(None)
    ensures DataContainer.Aggregate(DataContainer.Sum, vs + [None]) == DataContainer.Aggregate(DataContainer.Sum, vs)
    ensures DataContainer.Present(vs) == [] ==> DataContainer.Aggregate(DataContainer.Sum, vs + [None]).None? && DataContainer.Aggregate(DataContainer.Sum, vs + [Some(0.0)]) == Some(0.0)
  {
    assert (vs + [None])[..|vs|] == vs;
    assert DataContainer.Present(vs + [None]) == DataContainer.Present(vs);
    assert (vs + [Some(0.0)])[..|vs|] == vs;
  }

  /** A recent row whose count cells are all blank or redacted loads: the
      conversion never fails on it. */
  lemma BlankRowLoads(row: RawRow)
    requires forall j :: 0 <= j < |row.counts| ==> row.counts[j].None? || row.counts[j] == Some(Redacted)
    ensures CleanRow(row).Ok?
    ensures forall j :: 0 <= j < |row.counts| ==> CleanRow(row).value.counts[j] == None
  {
  }
}
