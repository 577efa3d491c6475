/** The reshaping rules of `WorldBankData` (lib/WorldBankData.py:232-351):
    which files and archive members are loaded, which columns of a World Bank
    CSV count as years, how a table is melted into (country, year, value)
    records, and how `indicator()` normalises its arguments. Reading files and
    pandas' outer merges are not modelled; the mappers are parameters. */
module WorldBankData {
  import opened Wrappers
  import opened Text

  /** `self.yearLimit`: only years from here on are kept. */
  const YearLimit := 1980

  // ----- _reshape: year columns and melt -----

  /** `name.isdigit() and int(name) >= self.yearLimit`. */
  predicate IsYearColumn(name: string) {
    IsDigits(name) && DigitsValue(name) >= YearLimit
  }

  /** The columns `_reshape` melts, in the order of the table. */
  function YearColumns(columns: seq<string>): (cols: seq<string>)
    ensures forall c :: c in cols <==> c in columns && IsYearColumn(c)
    ensures |cols| <= |columns|
  {
    if columns == [] then []
    else
      var last := columns[|columns| - 1];
      YearColumns(columns[..|columns| - 1]) + (if IsYearColumn(last) then [last] else [])
  }

  /** Selection keeps the order of the table: it distributes over concatenation. */
  lemma {:induction false} YearColumnsConcat(a: seq<string>, b: seq<string>)
    ensures YearColumns(a + b) == YearColumns(a) + YearColumns(b)
    decreases |b|
  {
    if b == [] {
      assert a + b == a;
    } else {
      var init := b[..|b| - 1];
      assert (a + b)[..|a + b| - 1] == a + init;
      YearColumnsConcat(a, init);
    }
  }

  /** One row of a World Bank CSV: the country code, the indicator code and a
      cell per column. */
  datatype SourceRow = SourceRow(countryCode: string, indicatorCode: string, cells: map<string, Option<real>>)

  datatype SourceFrame = SourceFrame(columns: seq<string>, rows: seq<SourceRow>)

  /** One row of the melted table: `Country Code`, `Year` and the value. */
  datatype Entry = Entry(countryCode: string, year: string, value: Option<real>)

  /** The melted table with the name of its value column. */
  datatype Reshaped = Reshaped(indicator: string, entries: seq<Entry>)

  /** Every row has a cell in every column. */
  predicate HasCells(rows: seq<SourceRow>, columns: seq<string>) {
    forall i, j :: 0 <= i < |rows| && 0 <= j < |columns| ==> columns[j] in rows[i].cells
  }

  /** The block `pd.melt` emits for one value column: every row in order. */
  function MeltColumn(rows: seq<SourceRow>, c: string): (es: seq<Entry>)
    requires forall i :: 0 <= i < |rows| ==> c in rows[i].cells
    ensures |es| == |rows|
    ensures forall i :: 0 <= i < |rows| ==> es[i] == Entry(rows[i].countryCode, c, rows[i].cells[c])
  {
    seq(|rows|, i requires 0 <= i < |rows| => Entry(rows[i].countryCode, c, rows[i].cells[c]))
  }

  /** `pd.melt(dataFrame, id_vars=["Country Code"], value_vars=cols)`: column by
      column, row by row. */
  function Melt(rows: seq<SourceRow>, cols: seq<string>): (es: seq<Entry>)
    requires HasCells(rows, cols)
  {
    if cols == [] then []
    else
      var c := cols[|cols| - 1];
      assert forall i :: 0 <= i < |rows| ==> cols[|cols| - 1] in rows[i].cells;
      Melt(rows, cols[..|cols| - 1]) + MeltColumn(rows, c)
  }

  /** The record of row `i` under column `j`. */
  function MeltedAt(rows: seq<SourceRow>, cols: seq<string>, i: nat, j: nat): Entry
    requires HasCells(rows, cols) && i < |rows| && j < |cols|
  {
    Entry(rows[i].countryCode, cols[j], rows[i].cells[cols[j]])
  }

  /** One record per (column, row) pair. */
  lemma {:induction false} MeltLength(rows: seq<SourceRow>, cols: seq<string>)
    requires HasCells(rows, cols)
    ensures |Melt(rows, cols)| == |cols| * |rows|
    decreases |cols|
  {
    if cols != [] {
      MeltLength(rows, cols[..|cols| - 1]);
      assert |Melt(rows, cols)| == (|cols| - 1) * |rows| + |rows|;
    }
  }

  /** The record of every row under every melted column is present. */
  lemma {:induction false} MeltHas(rows: seq<SourceRow>, cols: seq<string>, i: nat, j: nat)
    requires HasCells(rows, cols) && i < |rows| && j < |cols|
    ensures MeltedAt(rows, cols, i, j) in Melt(rows, cols)
    decreases |cols|
  {
    var init := cols[..|cols| - 1];
    if j < |init| {
      MeltHas(rows, init, i, j);
      assert MeltedAt(rows, init, i, j) == MeltedAt(rows, cols, i, j);
    } else {
      assert MeltColumn(rows, cols[j])[i] == MeltedAt(rows, cols, i, j);
    }
  }

  /** Every record is the record of some row under some melted column. */
  lemma {:induction false} MeltFrom(rows: seq<SourceRow>, cols: seq<string>, e: Entry)
    requires HasCells(rows, cols) && e in Melt(rows, cols)
    ensures exists i, j :: 0 <= i < |rows| && 0 <= j < |cols| && e == MeltedAt(rows, cols, i, j)
    decreases |cols|
  {
    var init := cols[..|cols| - 1];
    var c := cols[|cols| - 1];
    if e in Melt(rows, init) {
      MeltFrom(rows, init, e);
      var i, j :| 0 <= i < |rows| && 0 <= j < |init| && e == MeltedAt(rows, init, i, j);
      assert e == MeltedAt(rows, cols, i, j);
    } else {
      var i :| 0 <= i < |rows| && MeltColumn(rows, c)[i] == e;
      assert e == MeltedAt(rows, cols, i, |cols| - 1);
    }
  }

  /** `_reshape`: the year columns melted, the value column named after the
      first row's indicator code; an empty table has no first row (KeyError). */
  function Reshape(f: SourceFrame): (r: Result<Reshaped>)
    requires HasCells(f.rows, f.columns)
    ensures r.Err? <==> f.rows == []
    ensures r.Err? ==> r.failure == KeyMissing
    ensures r.Ok? ==> r.value.indicator == f.rows[0].indicatorCode
  {
    var cols := YearColumns(f.columns);
    YearCells(f.rows, f.columns);
    if f.rows == [] then Err(KeyMissing)
    else Ok(Reshaped(f.rows[0].indicatorCode, Melt(f.rows, cols)))
  }

  /** Every reshaped record has a year from 1980 on and a country code of the
      table, and there is one per row and year column. */
  lemma ReshapeYears(f: SourceFrame)
    requires HasCells(f.rows, f.columns) && Reshape(f).Ok?
    ensures |Reshape(f).value.entries| == |YearColumns(f.columns)| * |f.rows|
    ensures forall e :: e in Reshape(f).value.entries ==>
      IsYearColumn(e.year) && exists i :: 0 <= i < |f.rows| && e.countryCode == f.rows[i].countryCode
  {
    var cols := YearColumns(f.columns);
    YearCells(f.rows, f.columns);
    MeltLength(f.rows, cols);
    forall e | e in Reshape(f).value.entries
      ensures IsYearColumn(e.year) && exists i :: 0 <= i < |f.rows| && e.countryCode == f.rows[i].countryCode
    {
      MeltFrom(f.rows, cols, e);
      var i, j :| 0 <= i < |f.rows| && 0 <= j < |cols| && e == MeltedAt(f.rows, cols, i, j);
      assert cols[j] in cols;
    }
  }

  /** Each row has a cell for each year column of the table. */
  lemma YearCells(rows: seq<SourceRow>, columns: seq<string>)
    requires HasCells(rows, columns)
    ensures HasCells(rows, YearColumns(columns))
  {
    var cols := YearColumns(columns);
    forall i, j | 0 <= i < |rows| && 0 <= j < |cols| ensures cols[j] in rows[i].cells {
      assert cols[j] in cols;
      var k :| 0 <= k < |columns| && columns[k] == cols[j];
    }
  }

  // ----- _load: files and archive members -----

  /** `fname[-4:] == ".zip"`. */
  predicate IsZipName(fname: string) {
    Last(fname, 4) == ".zip"
  }

  /** The zip files of a directory listing, in listing order. */
  function ZipNames(listing: seq<string>): (fnames: seq<string>)
    ensures forall f :: f in fnames <==> f in listing && IsZipName(f)
  {
    if listing == [] then []
    else
      var last := listing[|listing| - 1];
      ZipNames(listing[..|listing| - 1]) + (if IsZipName(last) then [last] else [])
  }

  /** `os.path.split(fname)[1].split('_')[0]`, on the listed base name. */
  function IndicatorOf(fname: string): string {
    BeforeFirst(fname, '_')
  }

  /** A member is data unless its prefix is `Metadata` or it starts with `[`. */
  predicate IsDataMember(name: string)
    requires name != ""
  {
    BeforeFirst(name, '_') != "Metadata" && name[0] != '['
  }

  /** The data members of an archive. An empty name passes the `Metadata` test
      and then fails on `i[0]` with an IndexError. */
  function DataMembers(names: seq<string>): (r: Result<seq<string>>)
    ensures r.Err? <==> "" in names
    ensures r.Err? ==> r.failure == IndexOutOfRange
    ensures r.Ok? ==> forall n :: n in r.value <==> n in names && IsDataMember(n)
  {
    if "" in names then Err(IndexOutOfRange)
    else Ok(DataFilter(names))
  }

  function DataFilter(names: seq<string>): (ms: seq<string>)
    requires "" !in names
    ensures forall n :: n in ms <==> n in names && IsDataMember(n)
  {
    if names == [] then []
    else
      var last := names[|names| - 1];
      assert names[..|names| - 1] + [last] == names;
      DataFilter(names[..|names| - 1]) + (if IsDataMember(last) then [last] else [])
  }

  /** The one member `_load` reads; any other number is an AssertionError. */
  function DataMember(names: seq<string>): (r: Result<string>)
    ensures r.Ok? ==> r.value in names && r.value != "" && IsDataMember(r.value)
  {
    match DataMembers(names)
    case Err(e) => Err(e)
    case Ok(ms) => if |ms| != 1 then Err(AssertionFailed) else Ok(ms[0])
  }

  /** An archive yields a member exactly when no name is empty and exactly one
      name is data; every other name is then excluded. */
  lemma DataMemberUnique(names: seq<string>)
    ensures DataMember(names).Ok? ==> forall n :: n in names && n != DataMember(names).value ==> !IsDataMember(n)
    ensures "" !in names && |DataFilter(names)| == 1 ==> DataMember(names).Ok?
  {
    if DataMember(names).Ok? {
      var ms := DataMembers(names).value;
      assert |ms| == 1 && ms == [ms[0]];
    }
  }

  /** What the file system tells `_load` about one listed file. */
  datatype Archive = Archive(isZipFile: bool, members: seq<string>)

  /** One iteration of `_load`'s loop: skip a file whose indicator the mapper
      does not know, assert the file is a zip archive, pick its data member. */
  function LoadStep(fname: string, archive: Archive, indicatorCode: string -> Option<string>): Result<Option<string>>
  {
    if indicatorCode(IndicatorOf(fname)).None? then Ok(None)
    else if !archive.isZipFile then Err(AssertionFailed)
    else
      match DataMember(archive.members)
      case Err(e) => Err(e)
      case Ok(m) => Ok(Some(m))
  }

  /** The (file, member) pairs `_load` reads, in order, or the first error. */
  function LoadPlan(fnames: seq<string>, archives: string -> Archive, indicatorCode: string -> Option<string>): (r: Result<seq<(string, string)>>)
    ensures r.Ok? ==> |r.value| <= |fnames|
  {
    if fnames == [] then Ok([])
    else
      var f := fnames[|fnames| - 1];
      match LoadPlan(fnames[..|fnames| - 1], archives, indicatorCode)
      case Err(e) => Err(e)
      case Ok(plan) =>
        match LoadStep(f, archives(f), indicatorCode)
        case Err(e) => Err(e)
        case Ok(None) => Ok(plan)
        case Ok(Some(m)) => Ok(plan + [(f, m)])
  }

  /** One more file extends the plan by what the loop does with it. */
  lemma LoadPlanSnoc(fnames: seq<string>, archives: string -> Archive, indicatorCode: string -> Option<string>,
                     i: nat, plan: seq<(string, string)>)
    requires i < |fnames| && LoadPlan(fnames[..i], archives, indicatorCode) == Ok(plan)
    ensures var step := LoadStep(fnames[i], archives(fnames[i]), indicatorCode);
      LoadPlan(fnames[..i + 1], archives, indicatorCode) ==
        if step.Err? then Err(step.failure)
        else if step.value.None? then Ok(plan)
        else Ok(plan + [(fnames[i], step.value.value)])
  {
    assert fnames[..i + 1][..i] == fnames[..i];
  }

  /** Every loaded file is listed, has a known indicator, is a zip archive and
      contributes its single data member. */
  lemma {:induction false} LoadPlanSound(fnames: seq<string>, archives: string -> Archive, indicatorCode: string -> Option<string>)
    requires LoadPlan(fnames, archives, indicatorCode).Ok?
    ensures forall p :: p in LoadPlan(fnames, archives, indicatorCode).value ==>
        p.0 in fnames && indicatorCode(IndicatorOf(p.0)).Some? && archives(p.0).isZipFile &&
        DataMember(archives(p.0).members) == Ok(p.1)
    decreases |fnames|
  {
    if fnames != [] {
      var init := fnames[..|fnames| - 1];
      var f := fnames[|fnames| - 1];
      LoadPlanSound(init, archives, indicatorCode);
      var before := LoadPlan(init, archives, indicatorCode).value;
      var plan := LoadPlan(fnames, archives, indicatorCode).value;
      forall p | p in plan
        ensures p.0 in fnames && indicatorCode(IndicatorOf(p.0)).Some? && archives(p.0).isZipFile &&
          DataMember(archives(p.0).members) == Ok(p.1)
      {
        if p in before {
          assert p.0 in init;
        } else {
          var step := LoadStep(f, archives(f), indicatorCode);
          assert step.Ok? && step.value.Some? && plan == before + [(f, step.value.value)];
          assert p == (f, step.value.value);
        }
      }
    }
  }

  /** Every listed file with a known indicator is loaded. */
  lemma {:induction false} LoadPlanComplete(fnames: seq<string>, archives: string -> Archive, indicatorCode: string -> Option<string>, f: string)
    requires LoadPlan(fnames, archives, indicatorCode).Ok?
    requires f in fnames && indicatorCode(IndicatorOf(f)).Some?
    ensures exists p :: p in LoadPlan(fnames, archives, indicatorCode).value && p.0 == f
    decreases |fnames|
  {
    var init := fnames[..|fnames| - 1];
    var plan := LoadPlan(fnames, archives, indicatorCode).value;
    if f == fnames[|fnames| - 1] {
      assert plan[|plan| - 1].0 == f;
    } else {
      assert fnames == init + [fnames[|fnames| - 1]];
      LoadPlanComplete(init, archives, indicatorCode, f);
      var p :| p in LoadPlan(init, archives, indicatorCode).value && p.0 == f;
      assert p in plan;
    }
  }

  /** `_load`: the zip files of the listing, then one loop iteration per file. */
  method Load(listing: seq<string>, archives: string -> Archive, indicatorCode: string -> Option<string>)
    returns (r: Result<seq<(string, string)>>)
    ensures r == LoadPlan(ZipNames(listing), archives, indicatorCode)
  {
    var fnames := ZipNames(listing);
    var loaded: seq<(string, string)> := [];
    var i := 0;
    while i < |fnames|
      invariant 0 <= i <= |fnames|
      invariant LoadPlan(fnames[..i], archives, indicatorCode) == Ok(loaded)
    {
      var fname := fnames[i];
      var step := LoadStep(fname, archives(fname), indicatorCode);
      LoadPlanSnoc(fnames, archives, indicatorCode, i, loaded);
      if step.Err? {
        ErrorPropagates(fnames, archives, indicatorCode, i + 1);
        assert fnames[..|fnames|] == fnames;
        return Err(step.failure);
      }
      if step.value.Some? {
        loaded := loaded + [(fname, step.value.value)];
      }
      i := i + 1;
    }
    assert fnames[..i] == fnames;
    r := Ok(loaded);
  }

  /** `_load` fails exactly when the step for some listed file fails. */
  lemma {:induction false} LoadPlanFails(fnames: seq<string>, archives: string -> Archive, indicatorCode: string -> Option<string>)
    ensures LoadPlan(fnames, archives, indicatorCode).Err? <==>
      exists f :: f in fnames && LoadStep(f, archives(f), indicatorCode).Err?
    decreases |fnames|
  {
    if fnames != [] {
      var init, last := fnames[..|fnames| - 1], fnames[|fnames| - 1];
      LoadPlanFails(init, archives, indicatorCode);
      assert fnames == init + [last];
      assert forall f :: f in fnames <==> f in init || f == last;
    }
  }

  /** An error stops the loop: it stays the result however many files follow. */
  lemma {:induction false} ErrorPropagates(fnames: seq<string>, archives: string -> Archive, indicatorCode: string -> Option<string>, i: nat)
    requires i <= |fnames| && LoadPlan(fnames[..i], archives, indicatorCode).Err?
    ensures LoadPlan(fnames, archives, indicatorCode) == LoadPlan(fnames[..i], archives, indicatorCode)
    decreases |fnames| - i
  {
    if i < |fnames| {
      assert fnames[..i + 1][..i] == fnames[..i];
      ErrorPropagates(fnames, archives, indicatorCode, i + 1);
    } else {
      assert fnames[..i] == fnames;
    }
  }

  // ----- indicator(): argument normalisation -----

  /** `countryList`: a list, or anything else, which is wrapped in a list. */
  datatype CountryArg = One(country: string) | Many(countries: seq<string>)

  function AsList(arg: CountryArg): (l: seq<string>)
    ensures arg.One? ==> l == [arg.country]
    ensures arg.Many? ==> l == arg.countries
  {
    match arg
    case One(c) => [c]
    case Many(cs) => cs
  }

  /** What the loop keeps of one entry: nothing when the country mapper does not
      understand it, else the entry itself when it has three characters and the
      mapper's code otherwise. */
  function Kept(c: string, country: string -> Option<string>): seq<string>
  {
    if country(c).None? then [] else if |c| != 3 then [country(c).value] else [c]
  }

  /** The understood countries, in the order given. */
  function Understood(countries: seq<string>, country: string -> Option<string>): (tmp: seq<string>)
    ensures |tmp| <= |countries|
  {
    if countries == [] then []
    else Understood(countries[..|countries| - 1], country) + Kept(countries[|countries| - 1], country)
  }

  /** The loop keeps order: understanding distributes over concatenation. */
  lemma {:induction false} UnderstoodConcat(a: seq<string>, b: seq<string>, country: string -> Option<string>)
    ensures Understood(a + b, country) == Understood(a, country) + Understood(b, country)
    decreases |b|
  {
    if b == [] {
      assert a + b == a;
    } else {
      assert (a + b)[..|a + b| - 1] == a + b[..|b| - 1];
      UnderstoodConcat(a, b[..|b| - 1], country);
    }
  }

  /** Every kept entry comes from an understood input, as itself when it has
      three characters and as its code otherwise; nothing is kept exactly when
      no input is understood. */
  lemma {:induction false} UnderstoodShape(countries: seq<string>, country: string -> Option<string>)
    ensures forall t :: t in Understood(countries, country) ==>
      exists c :: c in countries && country(c).Some? && t == (if |c| != 3 then country(c).value else c)
    ensures Understood(countries, country) == [] <==> forall c :: c in countries ==> country(c).None?
    decreases |countries|
  {
    if countries != [] {
      var init := countries[..|countries| - 1];
      var last := countries[|countries| - 1];
      UnderstoodShape(init, country);
      assert countries == init + [last];
    }
  }

  /** The loop over `countryList` that builds `tmp`. */
  method UnderstoodCountries(countries: seq<string>, country: string -> Option<string>) returns (tmp: seq<string>)
    ensures tmp == Understood(countries, country)
  {
    tmp := [];
    var i := 0;
    while i < |countries|
      invariant 0 <= i <= |countries|
      invariant tmp == Understood(countries[..i], country)
    {
      var c := countries[i];
      assert countries[..i + 1][..i] == countries[..i];
      if country(c).Some? {
        if |c| != 3 {
          c := country(c).value;
        }
        tmp := tmp + [c];
      }
      i := i + 1;
    }
    assert countries[..i] == countries;
  }

  /** The merged World Bank table: one row per (country, year) with a value per
      indicator column. */
  datatype MergedRow = MergedRow(countryCode: string, year: string, values: map<string, Option<real>>)

  datatype Merged = Merged(columns: set<string>, rows: seq<MergedRow>)

  predicate WellFormed(d: Merged) {
    forall i, c :: 0 <= i < |d.rows| && c in d.columns ==> c in d.rows[i].values
  }

  /** `data["Year"][data["Country Code"] == country]`. */
  function YearsFor(rows: seq<MergedRow>, country: string): (ys: seq<string>)
    ensures |ys| <= |rows|
  {
    if rows == [] then []
    else
      var r := rows[|rows| - 1];
      YearsFor(rows[..|rows| - 1], country) + (if r.countryCode == country then [r.year] else [])
  }

  /** `data[name][data["Country Code"] == country]`. */
  function ValuesFor(rows: seq<MergedRow>, country: string, name: string): (vs: seq<Option<real>>)
    requires forall i :: 0 <= i < |rows| ==> name in rows[i].values
    ensures |vs| == |YearsFor(rows, country)|
  {
    if rows == [] then []
    else
      var r := rows[|rows| - 1];
      ValuesFor(rows[..|rows| - 1], country, name) + (if r.countryCode == country then [r.values[name]] else [])
  }

  /** The lists `x`, `y` and `c` that `indicator()` returns. */
  datatype Series = Series(x: seq<seq<string>>, y: seq<seq<Option<real>>>, c: seq<string>)

  /** The `try` body of the loop as written: the `x` append runs before the
      indicator column is looked up, so a missing column leaves that append in
      place and the `except` branch appends to `x` a second time. Without any
      data, the first lookup already fails. */
  function SeriesAsWritten(data: Option<Merged>, countries: seq<string>, name: string): (s: Series)
    requires data.Some? ==> WellFormed(data.value)
    ensures s.c == countries && |s.y| == |countries|
    ensures |s.x| == if data.Some? && name !in data.value.columns then 2 * |countries| else |countries|
  {
    if countries == [] then Series([], [], [])
    else
      var s := SeriesAsWritten(data, countries[..|countries| - 1], name);
      var country := countries[|countries| - 1];
      if data.None? then Series(s.x + [[]], s.y + [[]], s.c + [country])
      else if name !in data.value.columns then
        Series(s.x + [YearsFor(data.value.rows, country), []], s.y + [[]], s.c + [country])
      else
        Series(s.x + [YearsFor(data.value.rows, country)], s.y + [ValuesFor(data.value.rows, country, name)], s.c + [country])
  }

  /** With data loaded but no column for the indicator, the lists fall out of
      step: one country gives two years lists and one values list. */
  lemma SeriesAsWrittenMisaligned()
    ensures var d := Merged({}, [MergedRow("DEU", "1990", map[])]);
      var s := SeriesAsWritten(Some(d), ["DEU"], "SP.POP.TOTL");
      |s.x| == 2 && |s.y| == 1 && |s.c| == 1 && s.x[0] == ["1990"]
  {
    var d := Merged({}, [MergedRow("DEU", "1990", map[])]);
    assert [MergedRow("DEU", "1990", map[])][..0] == [];
    assert YearsFor(d.rows, "DEU") == ["1990"];
  }

  /** The evident intent: one entry per country in each list, empty when the
      data or the column is missing. */
  function SeriesOf(data: Option<Merged>, countries: seq<string>, name: string): (s: Series)
    requires data.Some? ==> WellFormed(data.value)
    ensures |s.x| == |s.y| == |s.c| == |countries|
    ensures s.c == countries
  {
    if countries == [] then Series([], [], [])
    else
      var s := SeriesOf(data, countries[..|countries| - 1], name);
      var country := countries[|countries| - 1];
      assert countries[..|countries| - 1] + [country] == countries;
      if data.None? || name !in data.value.columns then Series(s.x + [[]], s.y + [[]], s.c + [country])
      else
        Series(s.x + [YearsFor(data.value.rows, country)], s.y + [ValuesFor(data.value.rows, country, name)], s.c + [country])
  }

  lemma SeriesOfSnoc(data: Option<Merged>, countries: seq<string>, name: string, i: nat)
    requires data.Some? ==> WellFormed(data.value)
    requires i < |countries|
    ensures var s := SeriesOf(data, countries[..i], name);
      var country := countries[i];
      SeriesOf(data, countries[..i + 1], name) ==
        if data.None? || name !in data.value.columns then Series(s.x + [[]], s.y + [[]], s.c + [country])
        else Series(s.x + [YearsFor(data.value.rows, country)], s.y + [ValuesFor(data.value.rows, country, name)], s.c + [country])
  {
    assert countries[..i + 1][..i] == countries[..i];
  }

  /** Entry `k` of the corrected lists belongs to country `k`: its years and its
      values when the column exists, two empty lists otherwise; each years list
      is as long as its values list. */
  lemma {:induction false} SeriesOfAt(data: Option<Merged>, countries: seq<string>, name: string, k: nat)
    requires data.Some? ==> WellFormed(data.value)
    requires k < |countries|
    ensures var s := SeriesOf(data, countries, name);
      |s.x[k]| == |s.y[k]| &&
      (data.Some? && name in data.value.columns ==>
        s.x[k] == YearsFor(data.value.rows, countries[k]) && s.y[k] == ValuesFor(data.value.rows, countries[k], name)) &&
      (data.None? || name !in data.value.columns ==> s.x[k] == [] && s.y[k] == [])
    decreases |countries|
  {
    if k < |countries| - 1 {
      SeriesOfAt(data, countries[..|countries| - 1], name, k);
    }
  }

  /** The outcome of `indicator()`: `None` (the bare `return`) when no country
      or the indicator is not understood, an IndexError when the understood
      indicator is shorter than three characters, else the three lists. The
      lists are those of the corrected loop `SeriesOf`, one entry per country
      in each; as written, a missing indicator column gives `x` an extra entry
      per country (`SeriesAsWritten`). */
  function IndicatorResult(arg: CountryArg, name: string, data: Option<Merged>,
                           country: string -> Option<string>, indicatorCode: string -> Option<string>): (r: Result<Option<Series>>)
    requires data.Some? ==> WellFormed(data.value)
    ensures r.Err? <==> Understood(AsList(arg), country) != [] && indicatorCode(name).Some? && |name| < 3
    ensures r.Err? ==> r.failure == IndexOutOfRange
    ensures r == Ok(None) <==> Understood(AsList(arg), country) == [] || indicatorCode(name).None?
    ensures r.Ok? && r.value.Some? ==> var s := r.value.value;
      s.c == Understood(AsList(arg), country) && |s.x| == |s.y| == |s.c|
  {
    var countries := Understood(AsList(arg), country);
    if |countries| == 0 then Ok(None)
    else if indicatorCode(name).None? then Ok(None)
    else if |name| < 3 then Err(IndexOutOfRange)
    else
      var column := if name[2] != '.' then indicatorCode(name).value else name;
      Ok(Some(SeriesOf(data, countries, column)))
  }

  /** `indicator()`: the two normalisation steps, then one loop iteration per
      understood country. */
  method Indicator(arg: CountryArg, name: string, data: Option<Merged>,
                   country: string -> Option<string>, indicatorCode: string -> Option<string>)
    returns (r: Result<Option<Series>>)
    requires data.Some? ==> WellFormed(data.value)
    ensures r == IndicatorResult(arg, name, data, country, indicatorCode)
  {
    var countryList := AsList(arg);
    countryList := UnderstoodCountries(countryList, country);
    if |countryList| == 0 {
      return Ok(None);
    }
    if indicatorCode(name).None? {
      return Ok(None);
    }
    if |name| < 3 {
      return Err(IndexOutOfRange);
    }
    var column := name;
    if name[2] != '.' {
      column := indicatorCode(name).value;
    }
    var series := BuildSeries(data, countryList, column);
    r := Ok(Some(series));
  }

  /** The loop of `indicator()` over the understood countries (as corrected). */
  method BuildSeries(data: Option<Merged>, countries: seq<string>, column: string) returns (s: Series)
    requires data.Some? ==> WellFormed(data.value)
    ensures s == SeriesOf(data, countries, column)
  {
    var x: seq<seq<string>> := [];
    var y: seq<seq<Option<real>>> := [];
    var c: seq<string> := [];
    var i := 0;
    while i < |countries|
      invariant 0 <= i <= |countries|
      invariant Series(x, y, c) == SeriesOf(data, countries[..i], column)
    {
      var cc := countries[i];
      SeriesOfSnoc(data, countries, column, i);
      if data.Some? && column in data.value.columns {
        x := x + [YearsFor(data.value.rows, cc)];
        y := y + [ValuesFor(data.value.rows, cc, column)];
      } else {
        x := x + [[]];
        y := y + [[]];
      }
      c := c + [cc];
      i := i + 1;
    }
    assert countries[..i] == countries;
    s := Series(x, y, c);
  }

  /** `None` exactly when no country or the indicator is not understood; with
      a result, `c` lists the understood countries in order and the three lists
      are aligned. */
  lemma IndicatorShape(arg: CountryArg, name: string, data: Option<Merged>,
                       country: string -> Option<string>, indicatorCode: string -> Option<string>)
    requires data.Some? ==> WellFormed(data.value)
    ensures var r := IndicatorResult(arg, name, data, country, indicatorCode);
      (r == Ok(None) <==> (forall c :: c in AsList(arg) ==> country(c).None?) || indicatorCode(name).None?) &&
      (r.Ok? && r.value.Some? ==>
        var s := r.value.value;
        s.c == Understood(AsList(arg), country) && |s.x| == |s.y| == |s.c| > 0)
  {
    UnderstoodShape(AsList(arg), country);
  }
}
