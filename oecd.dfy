// The OECD migration table (lib/oecdData.py, `OECDdata._loadData`): flagged
// rows are dropped, five columns are kept, and the long table is pivoted into
// one row per (Year, Country, Country of origin) with one column per Variable.

module OecdData {
  import opened Wrappers
  import DataContainer
  import UnhcrData

  /** One line of the OECD CSV, reduced to the columns the loader looks at. A
      missing cell is `None`; `Value` is read as a float. */
  datatype OecdRow = OecdRow(
    year: int,
    country: Option<string>,
    origin: Option<string>,
    variable: string,
    value: Option<real>,
    flags: Option<string>)

  /** A row after the selection of Year, Country, Country of origin, Variable
      and Value. */
  datatype Selected = Selected(
    year: int,
    country: Option<string>,
    origin: Option<string>,
    variable: string,
    value: Option<real>)

  /** The pivot's index: (Year, Country, Country of origin). */
  type Key = (int, string, string)

  /** A pivoted row: the index and one cell per variable column. */
  datatype PivotRow = PivotRow(year: int, country: string, origin: string, cells: seq<Option<real>>)

  /** The pivoted table: its variable columns and its rows. */
  datatype Pivoted = Pivoted(variables: seq<string>, rows: seq<PivotRow>)

  /** `data[data["Flags"].isnull()]`: the rows without any flag, in order. */
  function Unflagged(rows: seq<OecdRow>): (r: seq<OecdRow>)
    ensures forall x :: x in r <==> x in rows && x.flags.None?
    ensures |r| <= |rows|
  {
    if rows == [] then []
    else
      var last := rows[|rows| - 1];
      Unflagged(rows[..|rows| - 1]) + (if last.flags.None? then [last] else [])
  }

  /** The column selection, row by row. */
  function Select(rows: seq<OecdRow>): (r: seq<Selected>)
    ensures |r| == |rows|
  {
    seq(|rows|, i requires 0 <= i < |rows| =>
      Selected(rows[i].year, rows[i].country, rows[i].origin, rows[i].variable, rows[i].value))
  }

  /** A row the pivot takes into account: its index is complete (grouping
      drops a missing key) and its value is present (the mean skips it). */
  predicate Counts(s: Selected) {
    s.country.Some? && s.origin.Some? && s.value.Some?
  }

  function KeyOf(s: Selected): Key
    requires Counts(s)
  {
    (s.year, s.country.value, s.origin.value)
  }

  /** The pivot's row index: the distinct keys of the counted rows, in order of
      first appearance. */
  function Keys(sel: seq<Selected>): (ks: seq<Key>)
    ensures forall k :: k in ks <==> exists n :: 0 <= n < |sel| && Counts(sel[n]) && KeyOf(sel[n]) == k
    ensures forall i, j :: 0 <= i < j < |ks| ==> ks[i] != ks[j]
  {
    if sel == [] then []
    else
      var init := Keys(sel[..|sel| - 1]);
      var last := sel[|sel| - 1];
      init + (if Counts(last) && KeyOf(last) !in init then [KeyOf(last)] else [])
  }

  /** The pivot's columns: the distinct variables of the counted rows, in order
      of first appearance (a variable with no value at all is dropped). */
  function Variables(sel: seq<Selected>): (vs: seq<string>)
    ensures forall v :: v in vs <==> exists n :: 0 <= n < |sel| && Counts(sel[n]) && sel[n].variable == v
    ensures forall i, j :: 0 <= i < j < |vs| ==> vs[i] != vs[j]
  {
    if sel == [] then []
    else
      var init := Variables(sel[..|sel| - 1]);
      var last := sel[|sel| - 1];
      init + (if Counts(last) && last.variable !in init then [last.variable] else [])
  }

  /** The row `n` is an observation of variable `v` under index `key`. */
  predicate Observes(sel: seq<Selected>, n: int, key: Key, v: string)
    requires 0 <= n < |sel|
  {
    Counts(sel[n]) && KeyOf(sel[n]) == key && sel[n].variable == v
  }

  /** The values observed for one cell of the pivot, in order. */
  function CellValues(sel: seq<Selected>, key: Key, v: string): (vs: seq<Option<real>>)
    ensures forall x :: x in vs ==> x.Some?
    ensures forall x: real :: Some(x) in vs <==> exists n :: 0 <= n < |sel| && Observes(sel, n, key, v) && sel[n].value == Some(x)
  {
    if sel == [] then []
    else
      var last := sel[|sel| - 1];
      var init := CellValues(sel[..|sel| - 1], key, v);
      assert forall n :: 0 <= n < |sel| - 1 ==> sel[..|sel| - 1][n] == sel[n];
      init + (if Counts(last) && KeyOf(last) == key && last.variable == v then [last.value] else [])
  }

  /** `pivot_table(index=[Year, Country, Country of origin], columns=Variable,
      values=Value)` with its default mean. */
  function Pivot(sel: seq<Selected>): (p: Pivoted)
    ensures p.variables == Variables(sel) && |p.rows| == |Keys(sel)|
    ensures forall i :: 0 <= i < |p.rows| ==> |p.rows[i].cells| == |p.variables|
  {
    var ks := Keys(sel);
    var vs := Variables(sel);
    Pivoted(vs, seq(|ks|, i requires 0 <= i < |ks| =>
      PivotRow(ks[i].0, ks[i].1, ks[i].2,
        seq(|vs|, j requires 0 <= j < |vs| => DataContainer.Aggregate(DataContainer.Mean, CellValues(sel, ks[i], vs[j]))))))
  }

  /** `_loadData`: the zip-file sanity check, then filter, select, pivot, and
      the two country columns through the mapper. */
  function Load(isZip: bool, rows: seq<OecdRow>, country: string -> Option<string>): (r: Result<Pivoted>)
    ensures r.Err? <==> !isZip
    ensures r.Err? ==> r.failure == AssertionFailed
    ensures r.Ok? ==> r.value.variables == Variables(Select(Unflagged(rows))) && |r.value.rows| == |Keys(Select(Unflagged(rows)))|
    ensures r.Ok? ==> var p := Pivot(Select(Unflagged(rows)));
      forall i :: 0 <= i < |r.value.rows| ==>
        r.value.rows[i] == PivotRow(p.rows[i].year, UnhcrData.Convert(p.rows[i].country, country),
                                    UnhcrData.Convert(p.rows[i].origin, country), p.rows[i].cells)
  {
    if !isZip then Err(AssertionFailed)
    else
      var p := Pivot(Select(Unflagged(rows)));
      Ok(Pivoted(p.variables, seq(|p.rows|, i requires 0 <= i < |p.rows| =>
        PivotRow(p.rows[i].year,
          UnhcrData.Convert(p.rows[i].country, country),
          UnhcrData.Convert(p.rows[i].origin, country),
          p.rows[i].cells))))
  }

  /** Each cell of the loaded table: row `i` is the `i`-th index with both
      countries mapped, and a cell is present exactly when some unflagged,
      counted row observes that variable under that index, and then lies
      within any bounds of those observations. */
  lemma LoadCell(isZip: bool, rows: seq<OecdRow>, country: string -> Option<string>, i: nat, j: nat, lo: real, hi: real)
    requires Load(isZip, rows, country).Ok?
    requires i < |Keys(Select(Unflagged(rows)))| && j < |Variables(Select(Unflagged(rows)))|
    ensures var sel := Select(Unflagged(rows));
      var row := Load(isZip, rows, country).value.rows[i];
      row.year == Keys(sel)[i].0 && row.country == UnhcrData.Convert(Keys(sel)[i].1, country) &&
      row.origin == UnhcrData.Convert(Keys(sel)[i].2, country) &&
      (row.cells[j].Some? <==> exists n :: 0 <= n < |sel| && Observes(sel, n, Keys(sel)[i], Variables(sel)[j])) &&
      (((forall n :: 0 <= n < |sel| && Observes(sel, n, Keys(sel)[i], Variables(sel)[j]) ==> lo <= sel[n].value.value <= hi) &&
        row.cells[j].Some?) ==> lo <= row.cells[j].value <= hi)
  {
    var sel := Select(Unflagged(rows));
    PivotCell(sel, i, j, lo, hi);
  }

  /** A row carrying a flag has no effect on the loaded table. */
  lemma FlaggedRowIgnored(isZip: bool, rows: seq<OecdRow>, r: OecdRow, country: string -> Option<string>)
    requires r.flags.Some?
    ensures Load(isZip, rows + [r], country) == Load(isZip, rows, country)
  {
    assert (rows + [r])[..|rows|] == rows;
    assert Unflagged(rows + [r]) == Unflagged(rows);
  }

  /** A row that the pivot cannot count (missing value, destination or origin)
      has no effect on the pivoted table. */
  lemma UncountedRowIgnored(sel: seq<Selected>, s: Selected)
    requires !Counts(s)
    ensures Pivot(sel + [s]) == Pivot(sel)
  {
    var all := sel + [s];
    assert all[..|sel|] == sel;
    assert Keys(all) == Keys(sel);
    assert Variables(all) == Variables(sel);
    forall key, v
      ensures CellValues(all, key, v) == CellValues(sel, key, v)
    {
    }
    var p, q := Pivot(all), Pivot(sel);
    forall i | 0 <= i < |p.rows|
      ensures p.rows[i] == q.rows[i]
    {
      assert p.rows[i].cells == q.rows[i].cells;
    }
  }

  /** Each cell of the pivot: present exactly when some counted row observes
      that variable under that index, and then the mean of those
      observations, so it lies within any bounds they all lie within. */
  lemma PivotCell(sel: seq<Selected>, i: nat, j: nat, lo: real, hi: real)
    requires i < |Keys(sel)| && j < |Variables(sel)|
    ensures var cell := Pivot(sel).rows[i].cells[j];
      cell.Some? <==> exists n :: 0 <= n < |sel| && Observes(sel, n, Keys(sel)[i], Variables(sel)[j])
    ensures var cell := Pivot(sel).rows[i].cells[j];
      ((forall n :: 0 <= n < |sel| && Observes(sel, n, Keys(sel)[i], Variables(sel)[j]) ==> lo <= sel[n].value.value <= hi) &&
       cell.Some?) ==> lo <= cell.value <= hi
  {
    var key, v := Keys(sel)[i], Variables(sel)[j];
    var vs := CellValues(sel, key, v);
    assert Pivot(sel).rows[i].cells[j] == DataContainer.Aggregate(DataContainer.Mean, vs);
    if vs != [] {
      assert Some(vs[0].value) in vs;
      PresentNonEmpty(vs, vs[0].value);
    }
    if exists n :: 0 <= n < |sel| && Observes(sel, n, key, v) {
      var n :| 0 <= n < |sel| && Observes(sel, n, key, v);
      assert Some(sel[n].value.value) in vs;
    }
    if forall n :: 0 <= n < |sel| && Observes(sel, n, key, v) ==> lo <= sel[n].value.value <= hi {
      if DataContainer.Present(vs) != [] {
        forall m | 0 <= m < |vs| && vs[m].Some?
          ensures lo <= vs[m].value <= hi
        {
          assert Some(vs[m].value) in vs;
        }
        DataContainer.MeanBounded(vs, lo, hi);
      }
    }
  }

  /** Row `i` of `p` holds at least one value. */
  predicate RowFilled(p: Pivoted, i: int)
    requires 0 <= i < |p.rows|
  {
    exists j :: 0 <= j < |p.rows[i].cells| && p.rows[i].cells[j].Some?
  }

  /** Column `j` of `p` holds at least one value. */
  predicate ColumnFilled(p: Pivoted, j: int) {
    exists i :: 0 <= i < |p.rows| && 0 <= j < |p.rows[i].cells| && p.rows[i].cells[j].Some?
  }

  /** Every pivot row and every variable column holds at least one value, as
      `pivot_table` drops all-missing rows and columns. */
  lemma PivotNoEmptyLines(sel: seq<Selected>)
    ensures forall i :: 0 <= i < |Pivot(sel).rows| ==> RowFilled(Pivot(sel), i)
    ensures forall j :: 0 <= j < |Pivot(sel).variables| ==> ColumnFilled(Pivot(sel), j)
  {
    var ks, vs, p := Keys(sel), Variables(sel), Pivot(sel);
    forall i | 0 <= i < |p.rows|
      ensures RowFilled(p, i)
    {
      assert ks[i] in ks;
      var n :| 0 <= n < |sel| && Counts(sel[n]) && KeyOf(sel[n]) == ks[i];
      assert sel[n].variable in vs;
      var j :| 0 <= j < |vs| && vs[j] == sel[n].variable;
      assert Observes(sel, n, ks[i], vs[j]);
      PivotCell(sel, i, j, 0.0, 0.0);
      assert p.rows[i].cells[j].Some?;
    }
    forall j | 0 <= j < |p.variables|
      ensures ColumnFilled(p, j)
    {
      assert vs[j] in vs;
      var n :| 0 <= n < |sel| && Counts(sel[n]) && sel[n].variable == vs[j];
      assert KeyOf(sel[n]) in ks;
      var i :| 0 <= i < |ks| && ks[i] == KeyOf(sel[n]);
      assert Observes(sel, n, ks[i], vs[j]);
      PivotCell(sel, i, j, 0.0, 0.0);
      assert p.rows[i].cells[j].Some?;
    }
  }

  lemma {:induction false} PresentNonEmpty(vs: seq<Option<real>>, x: real)
    requires Some(x) in vs
    ensures DataContainer.Present(vs) != []
  {
    var last := vs[|vs| - 1];
    if last != Some(x) {
      assert Some(x) in vs[..|vs| - 1];
      PresentNonEmpty(vs[..|vs| - 1], x);
    }
  }
}
