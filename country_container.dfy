/** The container of lib/utils.py: `CountryContainer` collects `Country`
    objects, stable-sorts them by year and produces each one's averaged or
    maximal counts in that order. */
module CountryContainers {
  import opened Wrappers
  import opened CountryMentions

  /** `sorted(data, key=itemgetter(1))` by insertion: `x` goes before the first
      entry whose year is not smaller, so entries of equal year keep their order. */
  function Insert<T>(x: (T, int), s: seq<(T, int)>): (r: seq<(T, int)>)
    ensures multiset(r) == multiset(s) + multiset{x}
    decreases |s|
  {
    if s == [] || x.1 <= s[0].1 then [x] + s
    else
      assert s == [s[0]] + s[1..];
      [s[0]] + Insert(x, s[1..])
  }

  function SortByYear<T>(s: seq<(T, int)>): (r: seq<(T, int)>)
    ensures multiset(r) == multiset(s)
  {
    if s == [] then []
    else
      assert s == [s[0]] + s[1..];
      Insert(s[0], SortByYear(s[1..]))
  }

  predicate SortedByYear<T>(s: seq<(T, int)>) {
    forall i, j :: 0 <= i < j < |s| ==> s[i].1 <= s[j].1
  }

  /** The entries of one year, in order. */
  function OfYear<T>(s: seq<(T, int)>, y: int): seq<(T, int)>
  {
    if s == [] then [] else (if s[0].1 == y then [s[0]] else []) + OfYear(s[1..], y)
  }

  /** Every year in `s` is at least `v`. */
  predicate YearsFrom<T>(s: seq<(T, int)>, v: int) {
    forall i :: 0 <= i < |s| ==> v <= s[i].1
  }

  lemma {:induction false} InsertYearsFrom<T>(x: (T, int), s: seq<(T, int)>, v: int)
    requires YearsFrom(s, v) && v <= x.1
    ensures YearsFrom(Insert(x, s), v)
    decreases |s|
  {
    if s != [] && x.1 > s[0].1 {
      InsertYearsFrom(x, s[1..], v);
      assert Insert(x, s) == [s[0]] + Insert(x, s[1..]);
    }
  }

  lemma {:induction false} InsertSorted<T>(x: (T, int), s: seq<(T, int)>)
    requires SortedByYear(s)
    ensures SortedByYear(Insert(x, s))
    decreases |s|
  {
    if s != [] && x.1 > s[0].1 {
      InsertSorted(x, s[1..]);
      assert YearsFrom(s[1..], s[0].1);
      InsertYearsFrom(x, s[1..], s[0].1);
      assert Insert(x, s) == [s[0]] + Insert(x, s[1..]);
    } else if s != [] {
      assert YearsFrom(s, x.1);
    }
  }

  /** Inserting `x` adds it in front of the other entries of its year and
      leaves the entries of every other year as they were. */
  lemma {:induction false} InsertOfYear<T>(x: (T, int), s: seq<(T, int)>, y: int)
    ensures OfYear(Insert(x, s), y) == if x.1 == y then [x] + OfYear(s, y) else OfYear(s, y)
    decreases |s|
  {
    if s == [] || x.1 <= s[0].1 {
      assert ([x] + s)[1..] == s;
    } else {
      InsertOfYear(x, s[1..], y);
      assert ([s[0]] + Insert(x, s[1..]))[1..] == Insert(x, s[1..]);
    }
  }

  /** The year order is ascending, and the order among entries of one year is
      kept (a stable sort). */
  lemma {:induction false} SortByYearSortedStable<T>(s: seq<(T, int)>)
    ensures SortedByYear(SortByYear(s))
    ensures forall y :: OfYear(SortByYear(s), y) == OfYear(s, y)
    decreases |s|
  {
    if s != [] {
      SortByYearSortedStable(s[1..]);
      InsertSorted(s[0], SortByYear(s[1..]));
      forall y ensures OfYear(SortByYear(s), y) == OfYear(s, y) {
        InsertOfYear(s[0], SortByYear(s[1..]), y);
      }
    }
  }

  /** Sorting keeps the same entries. */
  lemma SortMembers<T>(s: seq<(T, int)>, p: (T, int))
    ensures p in SortByYear(s) <==> p in s
  {
    assert p in SortByYear(s) <==> p in multiset(SortByYear(s));
    assert p in s <==> p in multiset(s);
  }

  /** The `Country` objects of the entries. */
  function Countries(entries: seq<(Country, int)>): set<Country>
  {
    set p | p in entries :: p.0
  }

  /** The state of each of the countries `cs`. */
  function States(cs: set<Country>): map<Country, CState>
    reads cs
  {
    map c | c in cs :: c.State()
  }

  /** The result of one call on a country, and the state it leaves. */
  type Call = (Country, CState) -> (Result<map<string, real>>, CState)

  /** The call `save` makes on one country: `maxCount()` with `useMax`,
      `averageCount()` otherwise. */
  function RowCall(useMax: bool): Call
  {
    (c: Country, s: CState) => if useMax then MaxStep(c.mapper, c.year, s) else AverageStep(c.mapper, c.year, s)
  }

  /** The comprehension of `save` over `entries` from the countries' states
      `st`, each country answering `call`: the rows in order or the first
      error, and the states the calls leave. A country listed twice is called
      twice, the second time on the state the first call left; a country never
      reached keeps its state. The rows here are the values each call returned
      at its time; `SavedRows` gives what `save` writes. */
  function RowsFrom(entries: seq<(Country, int)>, st: map<Country, CState>, call: Call)
    : (r: (Result<seq<map<string, real>>>, map<Country, CState>))
    requires forall j :: 0 <= j < |entries| ==> entries[j].0 in st
    ensures r.1.Keys == st.Keys
    ensures r.0.Ok? ==> |r.0.value| == |entries|
    decreases |entries|
  {
    if entries == [] then (Ok([]), st)
    else
      var init := entries[..|entries| - 1];
      var c := entries[|entries| - 1].0;
      var prev := RowsFrom(init, st, call);
      if prev.0.Err? then prev
      else
        var step := call(c, prev.1[c]);
        match step.0
        case Err(e) => (Err(e), prev.1[c := step.1])
        case Ok(row) => (Ok(prev.0.value + [row]), prev.1[c := step.1])
  }

  /** A country that no entry names keeps its state. */
  lemma {:induction false} RowsUntouched(entries: seq<(Country, int)>, st: map<Country, CState>, call: Call, c: Country)
    requires forall j :: 0 <= j < |entries| ==> entries[j].0 in st
    requires c in st && forall j :: 0 <= j < |entries| ==> entries[j].0 != c
    ensures RowsFrom(entries, st, call).1[c] == st[c]
    decreases |entries|
  {
    if entries != [] {
      var init := entries[..|entries| - 1];
      assert forall j :: 0 <= j < |init| ==> init[j] == entries[j];
      RowsUntouched(init, st, call, c);
    }
  }

  /** Once an error is met, the entries after it are never called. */
  lemma {:induction false} RowsFromErr(entries: seq<(Country, int)>, st: map<Country, CState>, call: Call, i: nat)
    requires forall j :: 0 <= j < |entries| ==> entries[j].0 in st
    requires i <= |entries| && RowsFrom(entries[..i], st, call).0.Err?
    ensures RowsFrom(entries, st, call) == RowsFrom(entries[..i], st, call)
    decreases |entries|
  {
    if i < |entries| {
      var init := entries[..|entries| - 1];
      assert init[..i] == entries[..i];
      RowsFromErr(init, st, call, i);
    } else {
      assert entries[..i] == entries;
    }
  }

  /** The state `maxCount()` starts from: the stored aggregation, or a fresh
      one in maximum mode. */
  function MaxBase(c: Country, s: CState): Agg
  {
    Base(c.mapper, s.countryCount, s.counter, s.maxSet, s.data, true)
  }

  /** How `maxCount()` behaves: it succeeds exactly when its aggregation is in
      maximum mode, fails its assertion otherwise, and leaves the country
      blocked, aggregated and in the mode of that aggregation. */
  ghost predicate MaxLike(call: Call, cs: set<Country>) {
    forall c, s | c in cs :: var r := call(c, s);
      (r.0.Ok? || r.0 == Err(AssertionFailed)) && (r.0.Ok? <==> MaxBase(c, s).maxSet) &&
      r.1.maxSet == MaxBase(c, s).maxSet && r.1.block && r.1.countryCount.Some?
  }

  /** `maxCount()` behaves so. */
  lemma MaxCallLike(cs: set<Country>)
    ensures MaxLike(RowCall(true), cs)
  {
  }

  /** With a stored aggregation, `maxCount()` keeps its mode. */
  lemma MaxBaseStored(c: Country, s: CState)
    requires s.countryCount.Some?
    ensures MaxBase(c, s).maxSet == s.maxSet
  {
  }

  /** After a successful `save(count="max")` every country is in maximum
      mode, blocked and aggregated. */
  lemma {:induction false} MaxRowsStates(entries: seq<(Country, int)>, st: map<Country, CState>, call: Call)
    requires forall j :: 0 <= j < |entries| ==> entries[j].0 in st
    requires MaxLike(call, Countries(entries))
    ensures var r := RowsFrom(entries, st, call);
      r.0.Ok? ==> forall j :: 0 <= j < |entries| ==>
        r.1[entries[j].0].maxSet && r.1[entries[j].0].block && r.1[entries[j].0].countryCount.Some?
    decreases |entries|
  {
    var r := RowsFrom(entries, st, call);
    if entries != [] && r.0.Ok? {
      var n := |entries| - 1;
      var init := entries[..n];
      var c := entries[n].0;
      assert Countries(init) <= Countries(entries);
      MaxRowsStates(init, st, call);
      var prev := RowsFrom(init, st, call);
      var step := call(c, prev.1[c]);
      assert r.1 == prev.1[c := step.1];
      forall j | 0 <= j < |entries|
        ensures r.1[entries[j].0].maxSet && r.1[entries[j].0].block && r.1[entries[j].0].countryCount.Some?
      {
        if j < n && entries[j].0 != c {
          assert entries[j] == init[j];
        }
      }
    }
  }

  /** `save(count="max")` succeeds exactly when every country's aggregation is
      (or becomes) a maximum-mode one; otherwise it fails the assertion of
      `maxCount`. */
  lemma {:induction false} MaxRowsOk(entries: seq<(Country, int)>, st: map<Country, CState>, call: Call)
    requires forall j :: 0 <= j < |entries| ==> entries[j].0 in st
    requires MaxLike(call, Countries(entries))
    ensures var r := RowsFrom(entries, st, call);
      (r.0.Ok? || r.0 == Err(AssertionFailed)) &&
      (r.0.Ok? <==> forall j :: 0 <= j < |entries| ==> MaxBase(entries[j].0, st[entries[j].0]).maxSet)
    decreases |entries|
  {
    if entries != [] {
      var n := |entries| - 1;
      var init := entries[..n];
      var c := entries[n].0;
      assert Countries(init) <= Countries(entries);
      MaxRowsOk(init, st, call);
      var prev := RowsFrom(init, st, call);
      forall j | 0 <= j < n ensures entries[j] == init[j] { }
      if prev.0.Ok? {
        MaxRowsStates(init, st, call);
        assert MaxBase(c, prev.1[c]).maxSet == MaxBase(c, st[c]).maxSet by {
          if exists k :: 0 <= k < n && init[k].0 == c {
            var k :| 0 <= k < n && init[k].0 == c;
            MaxBaseStored(c, prev.1[c]);
          } else {
            RowsUntouched(init, st, call, c);
          }
        }
      }
    }
  }

  /** `save(count="max")` succeeds exactly when every country's aggregation is
      (or becomes) a maximum-mode one, and then leaves every country in maximum
      mode and blocked; otherwise it fails the assertion of `maxCount`. */
  lemma MaxRows(entries: seq<(Country, int)>, st: map<Country, CState>, call: Call)
    requires forall j :: 0 <= j < |entries| ==> entries[j].0 in st
    requires MaxLike(call, Countries(entries))
    ensures var r := RowsFrom(entries, st, call);
      (r.0.Ok? || r.0 == Err(AssertionFailed)) &&
      (r.0.Ok? <==> forall j :: 0 <= j < |entries| ==> MaxBase(entries[j].0, st[entries[j].0]).maxSet) &&
      (r.0.Ok? ==> forall j :: 0 <= j < |entries| ==>
        r.1[entries[j].0].maxSet && r.1[entries[j].0].block && r.1[entries[j].0].countryCount.Some?)
  {
    MaxRowsOk(entries, st, call);
    MaxRowsStates(entries, st, call);
  }

  /** Over distinct countries every row is its country's own call result from
      the state it had before `save`, and the whole succeeds exactly when every
      country's call does. */
  lemma {:induction false} RowsDistinct(entries: seq<(Country, int)>, st: map<Country, CState>, call: Call)
    requires forall j :: 0 <= j < |entries| ==> entries[j].0 in st
    requires forall i, j :: 0 <= i < j < |entries| ==> entries[i].0 != entries[j].0
    ensures var r := RowsFrom(entries, st, call);
      (r.0.Ok? <==> forall j :: 0 <= j < |entries| ==> call(entries[j].0, st[entries[j].0]).0.Ok?) &&
      (r.0.Ok? ==> forall j :: 0 <= j < |entries| ==>
        Ok(r.0.value[j]) == call(entries[j].0, st[entries[j].0]).0 &&
        r.1[entries[j].0] == call(entries[j].0, st[entries[j].0]).1)
    decreases |entries|
  {
    if entries != [] {
      var n := |entries| - 1;
      var init := entries[..n];
      var c := entries[n].0;
      RowsDistinct(init, st, call);
      var prev := RowsFrom(init, st, call);
      var r := RowsFrom(entries, st, call);
      if prev.0.Ok? {
        RowsUntouched(init, st, call, c);
        var step := call(c, st[c]);
        if step.0.Ok? {
          assert r == (Ok(prev.0.value + [step.0.value]), prev.1[c := step.1]);
          forall j | 0 <= j < |entries|
            ensures call(entries[j].0, st[entries[j].0]).0.Ok?
            ensures Ok(r.0.value[j]) == call(entries[j].0, st[entries[j].0]).0
            ensures r.1[entries[j].0] == call(entries[j].0, st[entries[j].0]).1
          {
            if j < n {
              assert entries[j] == init[j] && init[j].0 != c;
              assert r.0.value[j] == prev.0.value[j];
            }
          }
        } else {
          assert r.0.Err?;
        }
      } else {
        assert r == prev;
        var k :| 0 <= k < n && !call(init[k].0, st[init[k].0]).0.Ok?;
        assert entries[k] == init[k];
      }
    }
  }

  /** The countries are the same after sorting. */
  lemma SortCountries(s: seq<(Country, int)>)
    ensures Countries(SortByYear(s)) == Countries(s)
  {
    forall p | p in s ensures p in SortByYear(s) { SortMembers(s, p); }
    forall p | p in SortByYear(s) ensures p in s { SortMembers(s, p); }
  }

  /** Every row a call returns carries its country's year under "YEAR". */
  ghost predicate YearLike(call: Call, cs: set<Country>) {
    forall c, s | c in cs :: var r := call(c, s);
      r.0.Ok? ==> "YEAR" in r.0.value && r.0.value["YEAR"] == c.year as real
  }

  /** `averageCount()` and `maxCount()` both add the year. */
  lemma RowCallYear(useMax: bool, cs: set<Country>)
    ensures YearLike(RowCall(useMax), cs)
  {
  }

  /** Every row of `save` carries its country's year under "YEAR". */
  lemma {:induction false} RowsYear(entries: seq<(Country, int)>, st: map<Country, CState>, call: Call)
    requires forall j :: 0 <= j < |entries| ==> entries[j].0 in st
    requires YearLike(call, Countries(entries))
    ensures var r := RowsFrom(entries, st, call).0;
      r.Ok? ==> forall j :: 0 <= j < |entries| ==> "YEAR" in r.value[j] && r.value[j]["YEAR"] == entries[j].0.year as real
    decreases |entries|
  {
    if entries != [] {
      var n := |entries| - 1;
      var init := entries[..n];
      assert Countries(init) <= Countries(entries);
      RowsYear(init, st, call);
      var prev := RowsFrom(init, st, call);
      var r := RowsFrom(entries, st, call);
      if prev.0.Ok? && r.0.Ok? {
        var c := entries[n].0;
        var step := call(c, prev.1[c]);
        assert r.0 == Ok(prev.0.value + [step.0.value]);
        forall j | 0 <= j < |entries|
          ensures "YEAR" in r.0.value[j] && r.0.value[j]["YEAR"] == entries[j].0.year as real
        {
          if j < n {
            assert entries[j] == init[j] && r.0.value[j] == prev.0.value[j];
          }
        }
      }
    }
  }

  /** One more entry: its country's call extends the rows, or its error ends
      them, and only that country's state changes. */
  lemma RowsSnoc(entries: seq<(Country, int)>, st: map<Country, CState>, call: Call, i: nat,
                 rows: seq<map<string, real>>, row: Result<map<string, real>>, s: CState)
    requires forall j :: 0 <= j < |entries| ==> entries[j].0 in st
    requires i < |entries| && RowsFrom(entries[..i], st, call).0 == Ok(rows)
    requires call(entries[i].0, RowsFrom(entries[..i], st, call).1[entries[i].0]) == (row, s)
    ensures var next := RowsFrom(entries[..i + 1], st, call);
      next.1 == RowsFrom(entries[..i], st, call).1[entries[i].0 := s] &&
      next.0 == (match row case Ok(m) => Ok(rows + [m]) case Err(e) => Err(e))
  {
    assert entries[..i + 1][..i] == entries[..i];
  }

  // ----- the rows `save` hands to `DataFrame.from_dict` -----

  /** The dictionary a country's `countryCount` holds, empty when it has none. */
  function Stored(s: CState): map<string, real>
  {
    match s.countryCount
    case Some(m) => m
    case None => map[]
  }

  /** `averageCount()` and `maxCount()` return `self.countryCount` itself, not
      a copy: after a successful call the country's dictionary is the row. */
  ghost predicate Aliased(call: Call, cs: set<Country>) {
    forall c, s | c in cs :: var r := call(c, s);
      r.0.Ok? ==> r.1.countryCount == Some(r.0.value)
  }

  lemma RowCallAliased(useMax: bool, cs: set<Country>)
    ensures Aliased(RowCall(useMax), cs)
  {
  }

  /** The rows of `save`: the comprehension's list holds each country's own
      dictionary, which `from_dict` reads once the list is complete. So every
      row shows its country's dictionary as the last call on it left it. */
  function SavedRows(entries: seq<(Country, int)>, st: map<Country, CState>, call: Call): (r: Result<seq<map<string, real>>>)
    requires forall j :: 0 <= j < |entries| ==> entries[j].0 in st
    ensures r.Err? <==> RowsFrom(entries, st, call).0.Err?
    ensures r.Ok? ==> |r.value| == |entries|
    ensures r.Ok? ==> forall i, j :: 0 <= i < |entries| && 0 <= j < |entries| && entries[i].0 == entries[j].0 ==> r.value[i] == r.value[j]
  {
    var sim := RowsFrom(entries, st, call);
    match sim.0
    case Err(e) => Err(e)
    case Ok(_) => Ok(seq(|entries|, j requires 0 <= j < |entries| => Stored(sim.1[entries[j].0])))
  }

  /** Entry `k` is the last one naming entry `j`'s country. */
  predicate LastCall(entries: seq<(Country, int)>, j: int, k: int) {
    0 <= j <= k < |entries| && entries[k].0 == entries[j].0 &&
    forall m :: k < m < |entries| ==> entries[m].0 != entries[j].0
  }

  /** With aliased results, a country's final dictionary is the row of the
      last entry that names it. */
  lemma {:induction false} RowsLastCall(entries: seq<(Country, int)>, st: map<Country, CState>, call: Call, j: nat)
    requires forall j :: 0 <= j < |entries| ==> entries[j].0 in st
    requires Aliased(call, Countries(entries)) && j < |entries|
    ensures var r := RowsFrom(entries, st, call);
      r.0.Ok? ==> exists k :: 0 <= k < |entries| && LastCall(entries, j, k) && r.1[entries[j].0].countryCount == Some(r.0.value[k])
    decreases |entries|
  {
    var n := |entries| - 1;
    var init := entries[..n];
    var c := entries[n].0;
    var prev := RowsFrom(init, st, call);
    var r := RowsFrom(entries, st, call);
    if prev.0.Ok? && r.0.Ok? {
      var step := call(c, prev.1[c]);
      assert c in Countries(entries);
      assert r == (Ok(prev.0.value + [step.0.value]), prev.1[c := step.1]);
      if entries[j].0 == c {
        assert LastCall(entries, j, n);
      } else {
        assert Countries(init) <= Countries(entries);
        assert entries[j] == init[j];
        RowsLastCall(init, st, call, j);
        var k :| 0 <= k < n && LastCall(init, j, k) && prev.1[init[j].0].countryCount == Some(prev.0.value[k]);
        assert entries[k] == init[k] && r.0.value[k] == prev.0.value[k];
        assert LastCall(entries, j, k);
      }
    }
  }

  /** Each saved row is the result of the last call on its country: a country
      listed twice shows, in both rows, what its second call left. */
  lemma SavedRowsLast(entries: seq<(Country, int)>, st: map<Country, CState>, call: Call, j: nat)
    requires forall j :: 0 <= j < |entries| ==> entries[j].0 in st
    requires Aliased(call, Countries(entries)) && j < |entries|
    ensures var r := SavedRows(entries, st, call);
      r.Ok? ==> exists k :: 0 <= k < |entries| && LastCall(entries, j, k) && r.value[j] == RowsFrom(entries, st, call).0.value[k]
  {
    RowsLastCall(entries, st, call, j);
  }

  /** Over distinct countries aliasing is invisible: the saved rows are the
      calls' own results. */
  lemma SavedRowsDistinct(entries: seq<(Country, int)>, st: map<Country, CState>, call: Call)
    requires forall j :: 0 <= j < |entries| ==> entries[j].0 in st
    requires Aliased(call, Countries(entries))
    requires forall i, j :: 0 <= i < j < |entries| ==> entries[i].0 != entries[j].0
    ensures SavedRows(entries, st, call) == RowsFrom(entries, st, call).0
  {
    var sim := RowsFrom(entries, st, call);
    if sim.0.Ok? {
      var saved := SavedRows(entries, st, call).value;
      forall j | 0 <= j < |entries| ensures saved[j] == sim.0.value[j] {
        SavedRowsLast(entries, st, call, j);
        var k :| 0 <= k < |entries| && LastCall(entries, j, k) && saved[j] == sim.0.value[k];
        assert k == j;
      }
      assert saved == sim.0.value;
    }
  }

  /** Every saved row carries its country's year under "YEAR". */
  lemma SavedRowsYear(entries: seq<(Country, int)>, st: map<Country, CState>, call: Call)
    requires forall j :: 0 <= j < |entries| ==> entries[j].0 in st
    requires Aliased(call, Countries(entries)) && YearLike(call, Countries(entries))
    ensures var r := SavedRows(entries, st, call);
      r.Ok? ==> forall j :: 0 <= j < |entries| ==> "YEAR" in r.value[j] && r.value[j]["YEAR"] == entries[j].0.year as real
  {
    RowsYear(entries, st, call);
    var r := SavedRows(entries, st, call);
    if r.Ok? {
      forall j | 0 <= j < |entries| ensures "YEAR" in r.value[j] && r.value[j]["YEAR"] == entries[j].0.year as real {
        SavedRowsLast(entries, st, call, j);
      }
    }
  }

  /** The dictionaries of the entries' countries as they are now. */
  function StoredRows(entries: seq<(Country, int)>): (rows: seq<map<string, real>>)
    reads Countries(entries)
    ensures |rows| == |entries|
    ensures forall j :: 0 <= j < |entries| ==> rows[j] == Stored(entries[j].0.State())
  {
    if entries == [] then []
    else
      assert Countries(entries[..|entries| - 1]) <= Countries(entries);
      StoredRows(entries[..|entries| - 1]) + [Stored(entries[|entries| - 1].0.State())]
  }

  /** Once the calls have left their states, the dictionaries read back are
      the saved rows. */
  lemma StoredSaved(entries: seq<(Country, int)>, st: map<Country, CState>, call: Call)
    requires forall j :: 0 <= j < |entries| ==> entries[j].0 in st
    requires forall c :: c in Countries(entries) ==> c.State() == RowsFrom(entries, st, call).1[c]
    requires RowsFrom(entries, st, call).0.Ok?
    ensures StoredRows(entries) == SavedRows(entries, st, call).value
  {
    assert forall j :: 0 <= j < |entries| ==> entries[j].0 in Countries(entries);
  }

  /** `averageCount()`, or with `useMax` `maxCount()`, on one country. */
  method CallOne(c: Country, useMax: bool) returns (row: Result<map<string, real>>)
    modifies c
    ensures (row, c.State()) == RowCall(useMax)(c, old(c.State()))
  {
    if useMax {
      row := c.MaxCount();
    } else {
      row := c.AverageCount();
    }
  }

  /** The countries' states are those the first `i` calls leave. */
  ghost predicate Reached(entries: seq<(Country, int)>, st: map<Country, CState>, call: Call, i: nat)
    requires i <= |entries| && forall j :: 0 <= j < |entries| ==> entries[j].0 in st
    reads Countries(entries)
  {
    forall c :: c in Countries(entries) ==> c in st && c.State() == RowsFrom(entries[..i], st, call).1[c]
  }

  /** When the loop stops, at the end or at an error, the states reached are
      the final ones. */
  lemma ReachedEnd(entries: seq<(Country, int)>, st: map<Country, CState>, call: Call, i: nat)
    requires i <= |entries| && forall j :: 0 <= j < |entries| ==> entries[j].0 in st
    requires Reached(entries, st, call, i)
    requires i == |entries| || RowsFrom(entries[..i], st, call).0.Err?
    ensures RowsFrom(entries, st, call) == RowsFrom(entries[..i], st, call)
    ensures forall c :: c in Countries(entries) ==> c.State() == RowsFrom(entries, st, call).1[c]
  {
    if i == |entries| {
      assert entries[..i] == entries;
    } else {
      RowsFromErr(entries, st, call, i);
    }
  }

  /** One step of the loop of `save`: the call on entry `i`, which extends the
      rows or ends them with its error. */
  method CountStep(entries: seq<(Country, int)>, useMax: bool, ghost st: map<Country, CState>, i: nat,
                   ghost rows: seq<map<string, real>>) returns (row: Result<map<string, real>>)
    requires i < |entries| && forall j :: 0 <= j < |entries| ==> entries[j].0 in st
    requires RowsFrom(entries[..i], st, RowCall(useMax)).0 == Ok(rows)
    requires Reached(entries, st, RowCall(useMax), i)
    modifies entries[i].0
    ensures Reached(entries, st, RowCall(useMax), i + 1)
    ensures RowsFrom(entries[..i + 1], st, RowCall(useMax)).0 == (match row case Ok(m) => Ok(rows + [m]) case Err(e) => Err(e))
  {
    var c := entries[i].0;
    assert c in Countries(entries);
    row := CallOne(c, useMax);
    RowsSnoc(entries, st, RowCall(useMax), i, rows, row, c.State());
  }

  /** The loop of `save`: each country's averaged, or with `useMax` maximal,
      counts in turn, stopping at the first error. The result holds what each
      call returned at the time; the rows `save` writes are read afterwards
      (`Dispatch`). */
  method CountRows(entries: seq<(Country, int)>, useMax: bool) returns (r: Result<seq<map<string, real>>>)
    modifies Countries(entries)
    ensures var sim := RowsFrom(entries, old(States(Countries(entries))), RowCall(useMax));
      r == sim.0 && forall c :: c in Countries(entries) ==> c.State() == sim.1[c]
  {
    ghost var st0 := States(Countries(entries));
    var rows: seq<map<string, real>> := [];
    var i := 0;
    while i < |entries|
      invariant i <= |entries|
      invariant RowsFrom(entries[..i], st0, RowCall(useMax)).0 == Ok(rows)
      invariant Reached(entries, st0, RowCall(useMax), i)
    {
      assert entries[i] in entries;
      var row := CountStep(entries, useMax, st0, i, rows);
      if row.Err? {
        ReachedEnd(entries, st0, RowCall(useMax), i + 1);
        return Err(row.failure);
      }
      rows := rows + [row.value];
      i := i + 1;
    }
    ReachedEnd(entries, st0, RowCall(useMax), i);
    return Ok(rows);
  }

  /** The facts `Dispatch` promises about the rows `save` hands on and the
      states it leaves, stated over the states before the calls. */
  lemma DispatchRows(entries: seq<(Country, int)>, st: map<Country, CState>, useMax: bool)
    requires forall j :: 0 <= j < |entries| ==> entries[j].0 in st
    ensures var r := SavedRows(entries, st, RowCall(useMax));
      r.Ok? ==> (|r.value| == |entries| &&
                 forall i :: 0 <= i < |entries| ==> "YEAR" in r.value[i] && r.value[i]["YEAR"] == entries[i].0.year as real)
    ensures useMax ==> var r := SavedRows(entries, st, RowCall(true));
      var sim := RowsFrom(entries, st, RowCall(true));
      (r.Ok? || r == Err(AssertionFailed)) &&
      (r.Ok? <==> forall i :: 0 <= i < |entries| ==> MaxBase(entries[i].0, st[entries[i].0]).maxSet) &&
      (r.Ok? ==> forall i :: 0 <= i < |entries| ==> sim.1[entries[i].0].maxSet && sim.1[entries[i].0].block)
  {
    RowCallYear(useMax, Countries(entries));
    RowCallAliased(useMax, Countries(entries));
    SavedRowsYear(entries, st, RowCall(useMax));
    if useMax {
      MaxCallLike(Countries(entries));
      MaxRows(entries, st, RowCall(true));
    }
  }

  /** The dispatch of `save` on the sorted entries: the averaged ("avg") or
      maximal ("max") counts of every country in order, read from the
      countries' dictionaries once every call is done; nothing for any other
      `count`. */
  method Dispatch(entries: seq<(Country, int)>, count: string) returns (r: Result<Option<seq<map<string, real>>>>)
    requires forall j :: 0 <= j < |entries| ==> entries[j].1 == entries[j].0.year
    modifies Countries(entries)
    ensures count != "avg" && count != "max" ==> r == Ok(None) && States(Countries(entries)) == old(States(Countries(entries)))
    ensures count == "avg" || count == "max" ==>
      var st := old(States(Countries(entries)));
      r == (match SavedRows(entries, st, RowCall(count == "max")) case Ok(rows) => Ok(Some(rows)) case Err(e) => Err(e)) &&
      forall c :: c in Countries(entries) ==> c.State() == RowsFrom(entries, st, RowCall(count == "max")).1[c]
    ensures (count == "avg" || count == "max") && r.Ok? ==> r.value.Some? && |r.value.value| == |entries|
    ensures (count == "avg" || count == "max") && r.Ok? ==>
      forall i :: 0 <= i < |entries| ==> "YEAR" in r.value.value[i] && r.value.value[i]["YEAR"] == entries[i].1 as real
    ensures count == "max" ==>
      (r.Ok? || r == Err(AssertionFailed)) &&
      (r.Ok? <==> forall i :: 0 <= i < |entries| ==> MaxBase(entries[i].0, old(States(Countries(entries)))[entries[i].0]).maxSet) &&
      (r.Ok? ==> forall i :: 0 <= i < |entries| ==> entries[i].0.maximum && entries[i].0.block)
  {
    if count != "avg" && count != "max" {
      r := Ok(None);
    } else {
      ghost var st0 := States(Countries(entries));
      var rows := CountRows(entries, count == "max");
      DispatchRows(entries, st0, count == "max");
      if rows.Err? {
        r := Err(rows.failure);
      } else {
        var saved := StoredRows(entries);
        StoredSaved(entries, st0, RowCall(count == "max"));
        r := Ok(Some(saved));
      }
    }
  }

  /** `CountryContainer`: the `Country` objects of several years. */
  class CountryContainer {
    var data: seq<(Country, int)>

    /** Each entry stores its country's own year. */
    predicate Valid()
      reads this
    {
      forall i :: 0 <= i < |data| ==> data[i].1 == data[i].0.year
    }

    constructor ()
      ensures Valid() && data == []
    {
      data := [];
    }

    /** `__call__(country)`: append the country with its year. */
    method Call(country: Country)
      requires Valid()
      modifies this
      ensures Valid() && data == old(data) + [(country, country.year)]
    {
      data := data + [(country, country.year)];
    }

    /** `save(fname, count)`: stable-sort by year, then produce every
        country's averaged ("avg") or maximal ("max") counts in that order;
        any other `count` produces nothing, after the sort. Writing the rows
        to a CSV file is not modelled. */
    method Save(count: string) returns (r: Result<Option<seq<map<string, real>>>>)
      requires Valid()
      modifies this, Countries(data)
      ensures Valid() && data == SortByYear(old(data))
      ensures Countries(data) == Countries(old(data))
      ensures count != "avg" && count != "max" ==> r == Ok(None) && States(Countries(data)) == old(States(Countries(data)))
      ensures count == "avg" || count == "max" ==>
        var st := old(States(Countries(data)));
        r == (match SavedRows(data, st, RowCall(count == "max")) case Ok(rows) => Ok(Some(rows)) case Err(e) => Err(e)) &&
        forall c :: c in Countries(data) ==> c.State() == RowsFrom(data, st, RowCall(count == "max")).1[c]
      ensures (count == "avg" || count == "max") && r.Ok? ==> r.value.Some? && |r.value.value| == |data|
      ensures (count == "avg" || count == "max") && r.Ok? ==>
        forall i :: 0 <= i < |data| ==> "YEAR" in r.value.value[i] && r.value.value[i]["YEAR"] == data[i].1 as real
      ensures count == "max" ==>
        (r.Ok? || r == Err(AssertionFailed)) &&
        (r.Ok? <==> forall i :: 0 <= i < |data| ==> MaxBase(data[i].0, old(States(Countries(data)))[data[i].0]).maxSet) &&
        (r.Ok? ==> forall i :: 0 <= i < |data| ==> data[i].0.maximum && data[i].0.block)
    {
      ghost var before := data;
      ghost var st0 := States(Countries(data));
      var sorted := SortByYear(data);
      SortCountries(before);
      data := sorted;
      assert States(Countries(sorted)) == st0;
      forall i | 0 <= i < |sorted| ensures sorted[i] in before && sorted[i].1 == sorted[i].0.year {
        SortMembers(before, sorted[i]);
      }
      r := Dispatch(sorted, count);
    }
  }
}
