// The newspaper mention counts (lib/newspaperData.py, `NewspaperData`): each
// added CSV is melted into (YEAR, Country, Mentions_<source>) records and
// left-merged into the data collected so far.

module NewspaperFrames {
  import opened Wrappers
  import opened Text

  /** A numeric CSV cell; `None` is a missing value. */
  type Cell = Option<real>

  /** A CSV file as `read_csv` returns it: the header and the rows. */
  datatype Csv = Csv(header: seq<string>, rows: seq<seq<Cell>>)

  /** Every row has one cell per header column. */
  predicate Rectangular(csv: Csv) {
    forall i :: 0 <= i < |csv.rows| ==> |csv.rows[i]| == |csv.header|
  }

  /** One melted record: the year, the column name as country, the count. */
  datatype Obs = Obs(year: Cell, country: string, value: Cell)

  /** A melted file: the name of its value column and its records. */
  datatype Melted = Melted(name: string, records: seq<Obs>)

  /** A row of the collected data: YEAR, Country and the mention columns. */
  datatype MRow = MRow(year: Cell, country: string, mentions: seq<Cell>)

  /** The collected data: the mention column names and the rows. */
  datatype Frame = Frame(names: seq<string>, rows: seq<MRow>)

  /** Every row has one mention cell per mention column. */
  predicate WellFormed(f: Frame) {
    forall i :: 0 <= i < |f.rows| ==> |f.rows[i].mentions| == |f.names|
  }

  /** The position just after the last `/` of `s`, or 0 when it has none. */
  function AfterLastSlash(s: string): (k: nat)
    ensures k <= |s| && (k > 0 ==> s[k - 1] == '/')
    ensures forall i :: k <= i < |s| ==> s[i] != '/'
  {
    if s == "" || s[|s| - 1] == '/' then |s| else AfterLastSlash(s[..|s| - 1])
  }

  /** `osp.split(fname)[1]`: the part after the last `/`. */
  function Basename(s: string): (b: string)
    ensures '/' !in b && |b| <= |s| && s == s[..|s| - |b|] + b
    ensures |b| < |s| ==> s[|s| - |b| - 1] == '/'
  {
    var k := AfterLastSlash(s);
    assert s == s[..k] + s[k..];
    s[k..]
  }

  /** The source name of a file: its basename up to the first `_`. */
  function SourceName(fname: string): (name: string)
    ensures '/' !in name && '_' !in name
  {
    var b := Basename(fname);
    var name := BeforeFirst(b, '_');
    assert forall c :: c in name ==> c in b;
    name
  }

  /** The source name is a prefix of the basename, ending where the basename
      does or at its first `_`. */
  lemma SourceNameShape(fname: string)
    ensures var b := Basename(fname); var name := SourceName(fname);
      b[..|name|] == name && (|name| == |b| || b[|name|] == '_')
  {
  }

  /** A file in a data directory is registered under its leading name. */
  lemma SourceNameExample()
    ensures SourceName("d/NYT_") == "NYT"
  {
    var b := Basename("d/NYT_");
    assert b == "NYT_";
    assert b[3] == '_' && forall i :: 0 <= i < 3 ==> b[i] != '_';
  }

  /** `del data[data.columns[0]]`: the first column removed; a table without
      columns has no first column (IndexError). */
  function Dropped(csv: Csv): (r: Result<Csv>)
    requires Rectangular(csv)
    ensures r.Err? <==> csv.header == []
    ensures r.Err? ==> r.failure == IndexOutOfRange
    ensures r.Ok? ==> Rectangular(r.value) && r.value.header == csv.header[1..] && |r.value.rows| == |csv.rows|
    ensures r.Ok? ==> forall i :: 0 <= i < |csv.rows| ==> r.value.rows[i] == csv.rows[i][1..]
  {
    if csv.header == [] then Err(IndexOutOfRange)
    else Ok(Csv(csv.header[1..], seq(|csv.rows|, i requires 0 <= i < |csv.rows| => csv.rows[i][1..])))
  }

  /** The positions of the columns `melt` turns into records: every column
      not named YEAR, in order. */
  function ValueColumns(header: seq<string>): (cols: seq<nat>)
    ensures forall j: nat :: j in cols <==> j < |header| && header[j] != "YEAR"
    ensures forall a, b :: 0 <= a < b < |cols| ==> cols[a] < cols[b]
    ensures forall a :: 0 <= a < |cols| ==> cols[a] < |header|
  {
    if header == [] then []
    else
      var n := |header| - 1;
      var init := ValueColumns(header[..n]);
      assert forall j :: j in init ==> j < n;
      assert forall a :: 0 <= a < |init| ==> init[a] in init;
      assert forall j: nat :: j < n ==> header[..n][j] == header[j];
      init + (if header[n] != "YEAR" then [n] else [])
  }

  /** The records of column `c`, one per row, in row order. */
  function MeltColumn(csv: Csv, y: nat, c: nat): (es: seq<Obs>)
    requires Rectangular(csv) && y < |csv.header| && c < |csv.header|
    ensures |es| == |csv.rows|
  {
    seq(|csv.rows|, i requires 0 <= i < |csv.rows| => Obs(csv.rows[i][y], csv.header[c], csv.rows[i][c]))
  }

  predicate InHeader(csv: Csv, cols: seq<nat>) {
    forall j :: 0 <= j < |cols| ==> cols[j] < |csv.header|
  }

  /** `pd.melt(data, id_vars=["YEAR"])`: column by column, row by row. */
  function MeltColumns(csv: Csv, y: nat, cols: seq<nat>): (es: seq<Obs>)
    requires Rectangular(csv) && y < |csv.header| && InHeader(csv, cols)
  {
    if cols == [] then []
    else MeltColumns(csv, y, cols[..|cols| - 1]) + MeltColumn(csv, y, cols[|cols| - 1])
  }

  /** The record of row `i` under column `c`. */
  function MeltedAt(csv: Csv, y: nat, i: nat, c: nat): Obs
    requires Rectangular(csv) && y < |csv.header| && i < |csv.rows| && c < |csv.header|
  {
    Obs(csv.rows[i][y], csv.header[c], csv.rows[i][c])
  }

  /** One record per (column, row) pair. */
  lemma {:induction false} MeltLength(csv: Csv, y: nat, cols: seq<nat>)
    requires Rectangular(csv) && y < |csv.header| && InHeader(csv, cols)
    ensures |MeltColumns(csv, y, cols)| == |cols| * |csv.rows|
    decreases |cols|
  {
    if cols != [] {
      MeltLength(csv, y, cols[..|cols| - 1]);
      assert |MeltColumns(csv, y, cols)| == (|cols| - 1) * |csv.rows| + |csv.rows|;
    }
  }

  /** A record is melted exactly when it is the record of some row under some
      melted column. */
  lemma {:induction false} MeltRecords(csv: Csv, y: nat, cols: seq<nat>, e: Obs)
    requires Rectangular(csv) && y < |csv.header| && InHeader(csv, cols)
    ensures e in MeltColumns(csv, y, cols) <==>
      exists i, k :: 0 <= i < |csv.rows| && 0 <= k < |cols| && e == MeltedAt(csv, y, i, cols[k])
    decreases |cols|
  {
    if cols != [] {
      var init := cols[..|cols| - 1];
      var c := cols[|cols| - 1];
      MeltRecords(csv, y, init, e);
      if e in MeltColumns(csv, y, cols) {
        if e !in MeltColumns(csv, y, init) {
          var i :| 0 <= i < |csv.rows| && MeltColumn(csv, y, c)[i] == e;
          assert e == MeltedAt(csv, y, i, cols[|cols| - 1]);
        } else {
          var i, k :| 0 <= i < |csv.rows| && 0 <= k < |init| && e == MeltedAt(csv, y, i, init[k]);
          assert cols[k] == init[k];
        }
      }
      if exists i, k :: 0 <= i < |csv.rows| && 0 <= k < |cols| && e == MeltedAt(csv, y, i, cols[k]) {
        var i, k :| 0 <= i < |csv.rows| && 0 <= k < |cols| && e == MeltedAt(csv, y, i, cols[k]);
        if k < |init| {
          assert init[k] == cols[k];
        } else {
          assert MeltColumn(csv, y, c)[i] == e;
        }
      }
    }
  }

  /** `_loadData` once the CSV is read: drop the row numbers, then melt with
      YEAR kept and the value column named `Mentions_<name>`; a file without a
      YEAR column cannot be melted (KeyError). */
  function Load(csv: Csv, name: string): (r: Result<Melted>)
    requires Rectangular(csv)
    ensures r.Err? <==> csv.header == [] || "YEAR" !in csv.header[1..]
    ensures r.Ok? ==> r.value.name == "Mentions_" + name
    ensures r.Ok? ==> var d := Dropped(csv).value;
      "YEAR" in d.header && r.value.records == MeltColumns(d, Position(d.header, "YEAR"), ValueColumns(d.header))
  {
    match Dropped(csv)
    case Err(e) => Err(e)
    case Ok(d) =>
      if "YEAR" !in d.header then Err(KeyMissing)
      else
        var y := Position(d.header, "YEAR");
        var cols := ValueColumns(d.header);
        Ok(Melted("Mentions_" + name, MeltColumns(d, y, cols)))
  }

  /** `e` is the record of some row under one of the columns `cols`. */
  ghost predicate MeltedRecord(csv: Csv, y: nat, cols: seq<nat>, e: Obs)
    requires Rectangular(csv) && y < |csv.header| && InHeader(csv, cols)
  {
    exists i, k :: 0 <= i < |csv.rows| && 0 <= k < |cols| && e == MeltedAt(csv, y, i, cols[k])
  }

  /** The loaded records: one per (row, value column) pair of the table `d`
      without its row numbers, and each the YEAR, column name and cell of some
      row of `d` under some column not named YEAR. */
  lemma LoadRecords(csv: Csv, name: string, d: Csv, e: Obs)
    requires Rectangular(csv) && Load(csv, name).Ok? && Dropped(csv) == Ok(d)
    ensures "YEAR" in d.header
    ensures |Load(csv, name).value.records| == |ValueColumns(d.header)| * |csv.rows|
    ensures e in Load(csv, name).value.records <==> MeltedRecord(d, Position(d.header, "YEAR"), ValueColumns(d.header), e)
  {
    var y, cols := Position(d.header, "YEAR"), ValueColumns(d.header);
    MeltLength(d, y, cols);
    MeltRecords(d, y, cols, e);
    assert MeltedRecord(d, y, cols, e) <==> e in MeltColumns(d, y, cols);
  }



  /** The values of the records under `(year, country)`, in order. */
  function Matches(right: seq<Obs>, year: Cell, country: string): (ms: seq<Cell>)
    ensures |ms| <= |right|
    ensures ms == [] <==> forall j :: 0 <= j < |right| ==> (right[j].year, right[j].country) != (year, country)
  {
    if right == [] then []
    else
      var last := right[|right| - 1];
      assert forall j :: 0 <= j < |right| - 1 ==> right[..|right| - 1][j] == right[j];
      Matches(right[..|right| - 1], year, country) + (if (last.year, last.country) == (year, country) then [last.value] else [])
  }

  /** The merged rows of one left row: one per matching record, or the row
      with a missing value when nothing matches. */
  function Joined(l: MRow, right: seq<Obs>): (js: seq<MRow>)
    ensures |js| >= 1
  {
    var ms := Matches(right, l.year, l.country);
    if ms == [] then [MRow(l.year, l.country, l.mentions + [None])]
    else seq(|ms|, k requires 0 <= k < |ms| => MRow(l.year, l.country, l.mentions + [ms[k]]))
  }

  /** The rows of `pd.merge(left, right, how='left', on=['YEAR','Country'])`:
      the left rows in order, each joined with its matches. */
  function MergeRows(left: seq<MRow>, right: seq<Obs>): (rs: seq<MRow>)
    ensures |rs| >= |left|
  {
    if left == [] then []
    else MergeRows(left[..|left| - 1], right) + Joined(left[|left| - 1], right)
  }

  /** The mention column names after the merge: a new name is appended; a
      name already present gets the suffixes `_x` (left) and `_y` (right). */
  function MergeNames(names: seq<string>, n: string): (ns: seq<string>)
    ensures |ns| == |names| + 1
    ensures n !in names ==> ns == names + [n]
  {
    if n in names then seq(|names|, j requires 0 <= j < |names| => if names[j] == n then n + "_x" else names[j]) + [n + "_y"]
    else names + [n]
  }

  /** The left merge of a melted file into the collected data. */
  function Merge(left: Frame, right: Melted): (f: Frame)
    ensures |f.names| == |left.names| + 1 && |f.rows| >= |left.rows|
    ensures right.name !in left.names ==> f.names == left.names + [right.name]
  {
    Frame(MergeNames(left.names, right.name), MergeRows(left.rows, right.records))
  }

  /** The data after adding a melted file: the file itself when nothing was
      loaded before, otherwise the merge. */
  function Added(prev: Option<Frame>, m: Melted): (f: Frame)
  {
    if prev.None? then Frame([m.name], seq(|m.records|, i requires 0 <= i < |m.records| =>
      MRow(m.records[i].year, m.records[i].country, [m.records[i].value])))
    else Merge(prev.value, m)
  }

  /** `r` is the left row `l` extended by one cell. */
  predicate Extends(r: MRow, l: MRow) {
    r.year == l.year && r.country == l.country &&
    |r.mentions| == |l.mentions| + 1 && r.mentions[..|l.mentions|] == l.mentions
  }

  lemma JoinedExtends(l: MRow, right: seq<Obs>)
    ensures forall r :: r in Joined(l, right) ==> Extends(r, l)
  {
    forall r | r in Joined(l, right)
      ensures Extends(r, l)
    {
      assert exists v :: r.mentions == l.mentions + [v];
    }
  }

  /** Every merged row extends some left row by one cell, and every left row
      is extended by some merged row: no left row is lost. */
  lemma {:induction false} MergeKeepsLeft(left: seq<MRow>, right: seq<Obs>)
    ensures forall r :: r in MergeRows(left, right) ==> exists l :: l in left && Extends(r, l)
    ensures forall l :: l in left ==> exists r :: r in MergeRows(left, right) && Extends(r, l)
  {
    if left != [] {
      var init := left[..|left| - 1];
      var last := left[|left| - 1];
      MergeKeepsLeft(init, right);
      JoinedExtends(last, right);
      var js := Joined(last, right);
      var rs := MergeRows(left, right);
      assert rs == MergeRows(init, right) + js;
      assert forall l :: l in init ==> l in left;
      forall l | l in left
        ensures exists r :: r in rs && Extends(r, l)
      {
        if l in init {
          var r :| r in MergeRows(init, right) && Extends(r, l);
          assert r in rs;
        } else {
          assert js[0] in rs && Extends(js[0], l);
        }
      }
    }
  }

  /** Every merged row is one cell wider than the left rows. */
  lemma {:induction false} MergeWidth(left: seq<MRow>, right: seq<Obs>, w: nat)
    requires forall i :: 0 <= i < |left| ==> |left[i].mentions| == w
    ensures forall i :: 0 <= i < |MergeRows(left, right)| ==> |MergeRows(left, right)[i].mentions| == w + 1
  {
    if left != [] {
      var init := left[..|left| - 1];
      MergeWidth(init, right, w);
      JoinedExtends(left[|left| - 1], right);
      var rs := MergeRows(left, right);
      forall i | 0 <= i < |rs|
        ensures |rs[i].mentions| == w + 1
      {
        if i >= |MergeRows(init, right)| {
          assert rs[i] in Joined(left[|left| - 1], right);
        }
      }
    }
  }

  /** The (YEAR, Country) pairs of the records are distinct. */
  predicate UniqueKeys(right: seq<Obs>) {
    forall i, j :: 0 <= i < j < |right| ==> (right[i].year, right[i].country) != (right[j].year, right[j].country)
  }

  /** The value of `(year, country)` in the records, missing when absent. */
  function Lookup(right: seq<Obs>, year: Cell, country: string): Cell {
    var ms := Matches(right, year, country);
    if ms == [] then None else ms[0]
  }

  lemma {:induction false} MatchesUnique(right: seq<Obs>, year: Cell, country: string)
    requires UniqueKeys(right)
    ensures |Matches(right, year, country)| <= 1
  {
    if right != [] {
      var init := right[..|right| - 1];
      var last := right[|right| - 1];
      assert UniqueKeys(init);
      MatchesUnique(init, year, country);
      if (last.year, last.country) == (year, country) {
        assert forall j :: 0 <= j < |init| ==> init[j] == right[j];
      }
    }
  }

  lemma JoinedUnique(l: MRow, right: seq<Obs>)
    requires UniqueKeys(right)
    ensures Joined(l, right) == [MRow(l.year, l.country, l.mentions + [Lookup(right, l.year, l.country)])]
  {
    MatchesUnique(right, l.year, l.country);
  }

  /** With distinct (YEAR, Country) records, the left merge keeps the left
      rows exactly, in order, each extended by its record's value or by a
      missing value. */
  lemma {:induction false} MergeUnique(left: seq<MRow>, right: seq<Obs>)
    requires UniqueKeys(right)
    ensures |MergeRows(left, right)| == |left|
    ensures forall i :: 0 <= i < |left| ==>
      MergeRows(left, right)[i] == MRow(left[i].year, left[i].country, left[i].mentions + [Lookup(right, left[i].year, left[i].country)])
  {
    if left != [] {
      var init := left[..|left| - 1];
      var last := left[|left| - 1];
      MergeUnique(init, right);
      JoinedUnique(last, right);
      assert forall i :: 0 <= i < |init| ==> init[i] == left[i];
    }
  }

  /** Merging keeps the data well formed. */
  lemma AddedWellFormed(prev: Option<Frame>, m: Melted)
    requires prev.Some? ==> WellFormed(prev.value)
    ensures WellFormed(Added(prev, m))
  {
    if prev.Some? {
      MergeWidth(prev.value.rows, m.records, |prev.value.names|);
    }
  }

  /** The first position of `n` in `names`. */
  function Position(names: seq<string>, n: string): (k: nat)
    requires n in names
    ensures k < |names| && names[k] == n && n !in names[..k]
  {
    if names[0] == n then 0 else 1 + Position(names[1..], n)
  }
}

module NewspaperData {
  import opened Wrappers
  import opened NewspaperFrames

  /** The per-source series of a frame: `YEAR` and one mention column per
      registered source, in registration order. */
  datatype Series = Series(years: seq<Cell>, mentions: seq<seq<Cell>>)

  /** `NewspaperData`: the data collected so far (`None` before the first
      successful `add`) and the registered source names. */
  class NewspaperData {
    var data: Option<Frame>
    var columns: seq<string>

    /** The collected data is well formed. */
    predicate Valid()
      reads this
    {
      data.Some? ==> WellFormed(data.value)
    }

    constructor()
      ensures data == None && columns == [] && Valid()
    {
      data := None;
      columns := [];
    }

    /** `add`: the source name is registered before the file is loaded, so
        it stays registered when loading fails; the first successful load
        sets the data, each later one is left-merged into it. */
    method Add(fname: string, csv: Csv) returns (r: Result<()>)
      requires Valid() && Rectangular(csv)
      modifies this
      ensures Valid()
      ensures columns == old(columns) + [SourceName(fname)]
      ensures r.Err? <==> Load(csv, SourceName(fname)).Err?
      ensures r.Err? ==> data == old(data)
      ensures r.Ok? ==> data == Some(Added(old(data), Load(csv, SourceName(fname)).value))
    {
      var name := SourceName(fname);
      columns := columns + [name];
      var loaded := Load(csv, name);
      if loaded.Err? {
        return Err(loaded.failure);
      }
      AddedWellFormed(data, loaded.value);
      data := Some(Added(data, loaded.value));
      r := Ok(());
    }

    /** `_extract`: the YEAR column and, for each registered source in order,
        its `Mentions_<name>` column; a source without such a column (its load
        failed, or its name was registered twice) gives a KeyError. */
    function Extract(f: Frame): (r: Result<Series>)
      reads this
      requires WellFormed(f)
      ensures r.Err? <==> exists k :: 0 <= k < |columns| && "Mentions_" + columns[k] !in f.names
      ensures r.Ok? ==> |r.value.years| == |f.rows| && |r.value.mentions| == |columns|
      ensures r.Ok? ==> forall i :: 0 <= i < |f.rows| ==> r.value.years[i] == f.rows[i].year
      ensures r.Ok? ==> forall k :: 0 <= k < |columns| ==>
        var n := "Mentions_" + columns[k];
        n in f.names && |r.value.mentions[k]| == |f.rows| &&
        forall i :: 0 <= i < |f.rows| ==> r.value.mentions[k][i] == f.rows[i].mentions[Position(f.names, n)]
    {
      var cs := columns;
      if exists k :: 0 <= k < |cs| && "Mentions_" + cs[k] !in f.names then Err(KeyMissing)
      else
        Ok(Series(
          seq(|f.rows|, i requires 0 <= i < |f.rows| => f.rows[i].year),
          seq(|cs|, k requires 0 <= k < |cs| =>
            var p := Position(f.names, "Mentions_" + cs[k]);
            seq(|f.rows|, i requires 0 <= i < |f.rows| => f.rows[i].mentions[p]))))
    }
  }
}
