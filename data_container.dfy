/** The column bookkeeping of lib/dataContainer.py for any list of categories:
    `dataClassMapper` (a `DoubleDict` per category and a first-hit lookup over
    them), the per-column aggregation of `DataContainer.collapse` and the
    column order of `DataContainer.orderColumns`. The 16 literal categories
    live in `DataContainerTables`. */
module DataContainer {
  import opened Wrappers
  import opened Text
  import opened DoubleDicts

  /** A category: the label `_map` reports and its (column, description) pairs. */
  datatype Group = Group(category: string, pairs: seq<(string, string)>)

  /** What `_map` answers for a name no category knows. */
  const Unmapped: (string, string) := ("None", "None")

  class DataClassMapper {
    /** The categories in the order `_map` tests them, each with its dictionary. */
    const categories: seq<(string, DoubleDict)>

    /** `__init__`: one `DoubleDict` per category, filled by
        `for name, ID in pairs: d[name.upper()] = ID.upper()`. */
    constructor (groups: seq<Group>)
      ensures Built(this, groups)
    {
      var cs: seq<(string, DoubleDict)> := [];
      var i := 0;
      while i < |groups|
        invariant i <= |groups| && |cs| == i
        invariant forall k :: 0 <= k < i ==>
          cs[k].0 == groups[k].category && cs[k].1.entries == UpperTable(groups[k].pairs)
      {
        var d := new DoubleDict();
        d.SetAll(UpperPairs(groups[i].pairs));
        cs := cs + [(groups[i].category, d)];
        i := i + 1;
      }
      categories := cs;
    }

    /** No category from `k` up to, not including, `j` holds `key`. */
    predicate Misses(key: string, k: nat, j: nat)
      reads this, set c | c in categories :: c.1
    {
      forall i :: k <= i < j && i < |categories| ==> key !in categories[i].1.entries
    }

    /** The cascade of `_map` from category `k` on. */
    function Cascade(key: string, k: nat): (r: (string, string))
      reads this, set c | c in categories :: c.1
      decreases |categories| - k
      ensures Misses(key, k, |categories|) ==> r == Unmapped
      ensures forall j :: k <= j < |categories| && key in categories[j].1.entries && Misses(key, k, j) ==>
        r == (categories[j].0, categories[j].1.entries[key])
    {
      if k >= |categories| then Unmapped
      else if key in categories[k].1.entries then (categories[k].0, categories[k].1.entries[key])
      else Cascade(key, k + 1)
    }

    /** `_map` (and `__call__`): the first category whose dictionary holds the
        upper-cased name, with that dictionary's entry; `("None", "None")` when
        there is none. */
    function Map(name: string): (r: (string, string))
      reads this, set c | c in categories :: c.1
      ensures Misses(Upper(name), 0, |categories|) ==> r == Unmapped
      ensures forall j :: 0 <= j < |categories| && Upper(name) in categories[j].1.entries && Misses(Upper(name), 0, j) ==>
        r == (categories[j].0, categories[j].1.entries[Upper(name)])
    {
      Cascade(Upper(name), 0)
    }

    /** `convert`: `_map` applied to every element of a vector. The result
        stands for the two arrays `np.vectorize` returns (the categories and
        the entries), zipped into one sequence of pairs. `np.vectorize`
        without `otypes` calls `_map` on the first element to learn the
        output types, so an empty vector is a ValueError. */
    function Convert(vector: seq<string>): (r: Result<seq<(string, string)>>)
      reads this, set c | c in categories :: c.1
      ensures r.Err? <==> vector == []
      ensures r.Err? ==> r.failure == ValueInvalid
      ensures r.Ok? ==> |r.value| == |vector|
      ensures r.Ok? ==> forall i :: 0 <= i < |vector| ==> r.value[i] == Map(vector[i])
    {
      if vector == [] then Err(ValueInvalid) else Ok(MapAll(vector))
    }

    /** `_map` on each element, in order. */
    function MapAll(vector: seq<string>): (r: seq<(string, string)>)
      reads this, set c | c in categories :: c.1
      ensures |r| == |vector|
      ensures forall i :: 0 <= i < |vector| ==> r[i] == Map(vector[i])
    {
      if vector == [] then [] else [Map(vector[0])] + MapAll(vector[1..])
    }
  }

  /** The mapper holds the given categories, in order. */
  predicate Built(m: DataClassMapper, groups: seq<Group>)
    reads m, set c | c in m.categories :: c.1
  {
    |m.categories| == |groups| &&
    forall k :: 0 <= k < |groups| ==>
      m.categories[k].0 == groups[k].category && m.categories[k].1.entries == UpperTable(groups[k].pairs)
  }

  /** The answer depends only on the upper-cased name. */
  lemma MapCaseless(m: DataClassMapper, name: string)
    ensures m.Map(Upper(name)) == m.Map(name) && m.Map(Lower(name)) == m.Map(name)
  {
    UpperIdempotent(name);
    UpperOfLower(name);
  }

  /** A name that no pair member matches, ignoring case, gives `("None", "None")`. */
  lemma MapUnknown(m: DataClassMapper, groups: seq<Group>, name: string)
    requires Built(m, groups)
    requires forall k :: 0 <= k < |groups| ==> Avoids(groups[k].pairs, Upper(name))
    ensures m.Map(name) == Unmapped
  {
    forall k | 0 <= k < |groups| ensures Upper(name) !in m.categories[k].1.entries {
      AvoidedMissing(groups[k].pairs, Upper(name));
    }
  }

  /** No category before `k` has a pair member matching `x`. */
  predicate AvoidedBefore(groups: seq<Group>, k: nat, x: string) {
    forall j :: 0 <= j < k && j < |groups| ==> Avoids(groups[j].pairs, x)
  }

  /** The first category with a matching pair member answers, with the
      upper-case entry stored for the upper-cased name. */
  lemma MapFirst(m: DataClassMapper, groups: seq<Group>, name: string, k: nat)
    requires Built(m, groups)
    requires k < |groups| && !Avoids(groups[k].pairs, Upper(name)) && AvoidedBefore(groups, k, Upper(name))
    ensures Upper(name) in m.categories[k].1.entries
    ensures m.Map(name) == (groups[k].category, m.categories[k].1.entries[Upper(name)])
    ensures HasNoLowerCase(m.Map(name).1)
  {
    var key := Upper(name);
    forall j | 0 <= j < k ensures key !in m.categories[j].1.entries {
      AvoidedMissing(groups[j].pairs, key);
    }
    assert m.Misses(key, 0, k);
    TableKeys(groups[k].pairs, key);
    TableUpper(groups[k].pairs);
  }

  /** Pair `i` of category `k`: its column finds the upper-cased description and
      the description finds the upper-cased column, both in category `k`, when no
      earlier category and no later pair of `k` mentions them. A pair (x, x), as
      in the UNHCR, OECD and newspaper categories, maps x to x upper-cased. */
  lemma MapPair(m: DataClassMapper, groups: seq<Group>, k: nat, i: nat)
    requires Built(m, groups)
    requires k < |groups| && i < |groups[k].pairs|
    requires AvoidedBefore(groups, k, Upper(groups[k].pairs[i].0))
    requires AvoidedBefore(groups, k, Upper(groups[k].pairs[i].1))
    requires Avoids(groups[k].pairs[i + 1..], Upper(groups[k].pairs[i].0))
    requires Avoids(groups[k].pairs[i + 1..], Upper(groups[k].pairs[i].1))
    ensures m.Map(groups[k].pairs[i].0) == (groups[k].category, Upper(groups[k].pairs[i].1))
    ensures m.Map(groups[k].pairs[i].1) == (groups[k].category, Upper(groups[k].pairs[i].0))
  {
    var (a, b) := groups[k].pairs[i];
    PairBothWays(groups[k].pairs, i);
    assert !Avoids(groups[k].pairs, Upper(a)) by {
      assert Upper(groups[k].pairs[i].0) == Upper(a);
    }
    assert !Avoids(groups[k].pairs, Upper(b)) by {
      assert Upper(groups[k].pairs[i].1) == Upper(b);
    }
    MapFirst(m, groups, a, k);
    MapFirst(m, groups, b, k);
  }

  // ----- DataContainer.orderColumns -----

  /** The column names of a category's pairs, in order. */
  function Columns(pairs: seq<(string, string)>): (cs: seq<string>)
    ensures |cs| == |pairs|
    ensures forall i :: 0 <= i < |pairs| ==> cs[i] == pairs[i].0
  {
    seq(|pairs|, i requires 0 <= i < |pairs| => pairs[i].0)
  }

  /** `orderedColumns`: the categories' column lists one after another. */
  function OrderedColumns(groups: seq<Group>): seq<string>
  {
    if groups == [] then [] else OrderedColumns(groups[..|groups| - 1]) + Columns(groups[|groups| - 1].pairs)
  }

  /** The order follows the categories: one category's columns come before the
      next one's. */
  lemma {:induction false} OrderedColumnsConcat(groups: seq<Group>, more: seq<Group>)
    ensures OrderedColumns(groups + more) == OrderedColumns(groups) + OrderedColumns(more)
    decreases |more|
  {
    if more == [] {
      assert groups + more == groups;
    } else {
      assert (groups + more)[..|groups + more| - 1] == groups + more[..|more| - 1];
      OrderedColumnsConcat(groups, more[..|more| - 1]);
    }
  }

  /** A category has column `c`. */
  predicate HasColumn(groups: seq<Group>, c: string) {
    exists k, i :: 0 <= k < |groups| && 0 <= i < |groups[k].pairs| && groups[k].pairs[i].0 == c
  }

  /** A column is listed exactly when some category has it. */
  lemma {:induction false} OrderedColumnsMembers(groups: seq<Group>, c: string)
    ensures c in OrderedColumns(groups) <==> HasColumn(groups, c)
    decreases |groups|
  {
    if groups != [] {
      var init := groups[..|groups| - 1];
      var g := groups[|groups| - 1];
      OrderedColumnsMembers(init, c);
      if HasColumn(init, c) {
        var k, i :| 0 <= k < |init| && 0 <= i < |init[k].pairs| && init[k].pairs[i].0 == c;
        assert groups[k] == init[k];
      }
      if c in Columns(g.pairs) {
        var i :| 0 <= i < |g.pairs| && Columns(g.pairs)[i] == c;
        assert groups[|groups| - 1].pairs[i].0 == c;
      }
      if HasColumn(groups, c) {
        var k, i :| 0 <= k < |groups| && 0 <= i < |groups[k].pairs| && groups[k].pairs[i].0 == c;
        if k < |init| {
          assert init[k] == groups[k];
        } else {
          assert Columns(g.pairs)[i] == c;
        }
      }
    }
  }

  /** The index columns `orderColumns` tries to put first. */
  const IndexColumns: seq<string> := ["Year", "Country"]

  /** `orderColumns`: the frame restricted to Year, Country and the ordered
      columns; when one of them is missing (KeyError), the ordered columns
      alone, which raise in turn when one of them is missing. */
  function OrderColumns(available: set<string>, ordered: seq<string>): (r: Result<seq<string>>)
    ensures r.Ok? ==> forall c :: c in r.value ==> c in available
    ensures r.Ok? && r.value == IndexColumns + ordered <==> forall c :: c in IndexColumns + ordered ==> c in available
    ensures r.Ok? && r.value != IndexColumns + ordered ==> r.value == ordered
    ensures r.Err? <==> exists c :: c in ordered && c !in available
  {
    if forall c :: c in IndexColumns + ordered ==> c in available then Ok(IndexColumns + ordered)
    else if forall c :: c in ordered ==> c in available then
      assert exists c :: c in IndexColumns && c !in available;
      Ok(ordered)
    else Err(KeyMissing)
  }

  // ----- DataContainer.collapse -----

  /** The aggregation of a column per (Year, Country) group. */
  datatype Aggregation = Sum | Mean

  /** The categories whose columns are counts and are summed. */
  const SummedLabels: set<string> := {"UNHCR", "OECD"}

  /** The weather columns `collapse` averages besides the categories' columns
      (`AWND` is not among them). */
  const WeatherColumns: seq<string> := ["PRCP", "SNOW", "SNWD", "TMAX", "TMIN"]

  /** A column of a category labelled in `labels`. */
  predicate InLabelled(groups: seq<Group>, labels: set<string>, c: string) {
    exists k, i :: 0 <= k < |groups| && 0 <= i < |groups[k].pairs| && groups[k].category in labels && groups[k].pairs[i].0 == c
  }

  /** The dictionary passed to `agg`: every category column and every weather
      column, summed when it belongs to the UNHCR or OECD category and averaged
      otherwise. */
  function Policy(groups: seq<Group>): (p: map<string, Aggregation>)
    ensures forall c :: c in p <==> c in OrderedColumns(groups) || c in WeatherColumns
    ensures forall c :: c in p ==> (p[c] == Sum <==> InLabelled(groups, SummedLabels, c))
  {
    map c | c in OrderedColumns(groups) + WeatherColumns :: if InLabelled(groups, SummedLabels, c) then Sum else Mean
  }

  /** No weather column is summed, provided no UNHCR or OECD column bears a
      weather element's name. */
  lemma PolicyWeather(groups: seq<Group>, c: string)
    requires c in WeatherColumns && !InLabelled(groups, SummedLabels, c)
    ensures c in Policy(groups) && Policy(groups)[c] == Mean
  {
  }

  /** One row of the merged table: index values and a value per column. */
  datatype Row = Row(year: int, country: string, origin: Option<string>, values: map<string, Option<real>>)

  datatype Frame = Frame(columns: set<string>, rows: seq<Row>)

  predicate WellFormed(f: Frame) {
    forall i, c :: 0 <= i < |f.rows| && c in f.columns ==> c in f.rows[i].values
  }

  /** The values present in a column, missing ones left out. */
  function Present(vs: seq<Option<real>>): (ps: seq<real>)
    ensures |ps| <= |vs|
  {
    if vs == [] then []
    else Present(vs[..|vs| - 1]) + (if vs[|vs| - 1].Some? then [vs[|vs| - 1].value] else [])
  }

  function Total(xs: seq<real>): real {
    if xs == [] then 0.0 else Total(xs[..|xs| - 1]) + xs[|xs| - 1]
  }

  /** `np.sum` or `np.mean` over a group as pandas applies them: missing values
      are skipped; a group with no value at all gives a missing value. */
  function Aggregate(agg: Aggregation, vs: seq<Option<real>>): (r: Option<real>)
    ensures r.None? <==> Present(vs) == []
  {
    var ps := Present(vs);
    if ps == [] then None
    else if agg == Sum then Some(Total(ps))
    else Some(Total(ps) / (|ps| as real))
  }

  /** Summing a group split in two (say by origin) gives the sum of the halves. */
  lemma {:induction false} SumSplits(a: seq<Option<real>>, b: seq<Option<real>>)
    requires Present(a) != [] && Present(b) != []
    ensures Aggregate(Sum, a + b) == Some(Aggregate(Sum, a).value + Aggregate(Sum, b).value)
  {
    PresentConcat(a, b);
    TotalConcat(Present(a), Present(b));
  }

  lemma {:induction false} PresentConcat(a: seq<Option<real>>, b: seq<Option<real>>)
    ensures Present(a + b) == Present(a) + Present(b)
    decreases |b|
  {
    if b == [] {
      assert a + b == a;
    } else {
      assert (a + b)[..|a + b| - 1] == a + b[..|b| - 1];
      PresentConcat(a, b[..|b| - 1]);
    }
  }

  lemma {:induction false} TotalConcat(a: seq<real>, b: seq<real>)
    ensures Total(a + b) == Total(a) + Total(b)
    decreases |b|
  {
    if b == [] {
      assert a + b == a;
    } else {
      assert (a + b)[..|a + b| - 1] == a + b[..|b| - 1];
      TotalConcat(a, b[..|b| - 1]);
    }
  }

  /** A mean lies within any bounds of the values it averages. */
  lemma MeanBounded(vs: seq<Option<real>>, lo: real, hi: real)
    requires Present(vs) != []
    requires forall i :: 0 <= i < |vs| && vs[i].Some? ==> lo <= vs[i].value <= hi
    ensures lo <= Aggregate(Mean, vs).value <= hi
  {
    PresentBounded(vs, lo, hi);
    AverageBounded(Present(vs), lo, hi);
  }

  lemma AverageBounded(ps: seq<real>, lo: real, hi: real)
    requires ps != []
    requires forall x :: x in ps ==> lo <= x <= hi
    ensures lo <= Total(ps) / (|ps| as real) <= hi
  {
    TotalBounded(ps, lo, hi);
    Quotient(Total(ps), |ps| as real, lo, hi);
  }

  lemma Quotient(t: real, n: real, lo: real, hi: real)
    requires n > 0.0 && n * lo <= t <= n * hi
    ensures lo <= t / n <= hi
  {
  }

  lemma {:induction false} PresentBounded(vs: seq<Option<real>>, lo: real, hi: real)
    requires forall i :: 0 <= i < |vs| && vs[i].Some? ==> lo <= vs[i].value <= hi
    ensures forall x :: x in Present(vs) ==> lo <= x <= hi
    decreases |vs|
  {
    if vs != [] {
      PresentBounded(vs[..|vs| - 1], lo, hi);
    }
  }

  lemma {:induction false} TotalBounded(xs: seq<real>, lo: real, hi: real)
    requires forall x :: x in xs ==> lo <= x <= hi
    ensures (|xs| as real) * lo <= Total(xs) <= (|xs| as real) * hi
    decreases |xs|
  {
    if xs != [] {
      var init := xs[..|xs| - 1];
      var n := |init| as real;
      assert xs[|xs| - 1] in xs;
      assert forall x :: x in init ==> x in xs;
      TotalBounded(init, lo, hi);
      assert |xs| as real == n + 1.0;
      assert (n + 1.0) * lo == n * lo + lo;
      assert (n + 1.0) * hi == n * hi + hi;
    }
  }

  /** The rows of one (Year, Country) group, whatever their origin. */
  function GroupRows(rows: seq<Row>, year: int, country: string): (g: seq<Row>)
    ensures forall r :: r in g <==> r in rows && r.year == year && r.country == country
  {
    if rows == [] then []
    else
      var r := rows[|rows| - 1];
      GroupRows(rows[..|rows| - 1], year, country) + (if r.year == year && r.country == country then [r] else [])
  }

  /** One column of some rows. */
  function ColumnOf(rows: seq<Row>, c: string): (vs: seq<Option<real>>)
    requires forall i :: 0 <= i < |rows| ==> c in rows[i].values
    ensures |vs| == |rows|
    ensures forall i :: 0 <= i < |rows| ==> vs[i] == rows[i].values[c]
  {
    seq(|rows|, i requires 0 <= i < |rows| => rows[i].values[c])
  }

  /** The (Year, Country) keys of a table. */
  function Keys(rows: seq<Row>): set<(int, string)> {
    set r | r in rows :: (r.year, r.country)
  }

  /** `collapse`: group on (Year, Country), dropping Origin, and aggregate
      every column of the policy; a policy column the table lacks is a KeyError. */
  function Collapse(f: Frame, policy: map<string, Aggregation>): (r: Result<map<(int, string), map<string, Option<real>>>>)
    requires WellFormed(f)
    ensures r.Err? <==> exists c :: c in policy && c !in f.columns
    ensures r.Ok? ==> r.value.Keys == Keys(f.rows)
    ensures r.Ok? ==> forall k :: k in r.value ==> r.value[k].Keys == policy.Keys
  {
    if exists c :: c in policy && c !in f.columns then Err(KeyMissing)
    else
      Ok(map k | k in Keys(f.rows) ::
        map c | c in policy :: GroupAggregate(f, policy, k, c))
  }

  /** Each cell of the collapsed table is its column over the rows of its
      (Year, Country) group, all origins together, aggregated as the policy
      says for that column. */
  lemma CollapseCell(f: Frame, policy: map<string, Aggregation>, k: (int, string), c: string)
    requires WellFormed(f) && forall c' :: c' in policy ==> c' in f.columns
    requires k in Keys(f.rows) && c in policy
    ensures Collapse(f, policy).Ok? && k in Collapse(f, policy).value
    ensures var g := GroupRows(f.rows, k.0, k.1); forall i :: 0 <= i < |g| ==> c in g[i].values
    ensures Collapse(f, policy).value[k][c] == Aggregate(policy[c], ColumnOf(GroupRows(f.rows, k.0, k.1), c))
  {
    var g := GroupRows(f.rows, k.0, k.1);
    forall i | 0 <= i < |g| ensures c in g[i].values {
      assert g[i] in f.rows;
    }
  }

  /** The collapsed value of column `c` for group `k`. */
  function GroupAggregate(f: Frame, policy: map<string, Aggregation>, k: (int, string), c: string): Option<real>
    requires WellFormed(f) && c in policy && c in f.columns
  {
    var g := GroupRows(f.rows, k.0, k.1);
    assert forall i :: 0 <= i < |g| ==> c in g[i].values by {
      forall i | 0 <= i < |g| ensures c in g[i].values {
        assert g[i] in f.rows;
      }
    }
    Aggregate(policy[c], ColumnOf(g, c))
  }

  /** The collapsed table's columns, once `reset_index` has restored Year and
      Country, include every ordered column, so `orderColumns` takes its first
      branch: Year, Country and the category columns, and no weather column. */
  lemma OrderAfterCollapse(groups: seq<Group>)
    ensures OrderColumns(CollapsedColumns(groups), OrderedColumns(groups)) == Ok(IndexColumns + OrderedColumns(groups))
  {
  }

  /** The columns of the collapsed table after `reset_index`. */
  function CollapsedColumns(groups: seq<Group>): set<string> {
    {"Year", "Country"} + Policy(groups).Keys
  }
}
