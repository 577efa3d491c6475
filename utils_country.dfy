/** The newspaper mention counter of lib/utils.py: `Country` collects the article
    count of each searched name, aggregates the counts per country code (by
    maximum or by sum, keeping a tally of names per code) and produces the
    averaged or maximal counts. `CountryContainer` is in `CountryContainers`. */
module CountryMentions {
  import opened Wrappers

  /** The country mapper `CountryCodeMapper()` of lib/countryCodeMapper.py
      (not part of this model): a name's code, or `None` when it is not
      understood. */
  type Mapper = string -> Option<string>

  type Pos = n: nat | n >= 1 witness 1

  /** `Country.counter`: per key, in first-insertion order, the length of its
      list of ones. */
  type Tallies = seq<(Option<string>, Pos)>

  // ----- the tally of names per code -----

  function TallyOf(counter: Tallies, k: Option<string>): nat
  {
    if counter == [] then 0
    else if counter[0].0 == k then counter[0].1
    else TallyOf(counter[1..], k)
  }

  predicate HasKey(counter: Tallies, k: Option<string>) {
    exists i :: 0 <= i < |counter| && counter[i].0 == k
  }

  predicate DistinctKeys(counter: Tallies) {
    forall i, j :: 0 <= i < j < |counter| ==> counter[i].0 != counter[j].0
  }

  lemma HasKeyCons(h: (Option<string>, Pos), t: Tallies, k: Option<string>)
    ensures HasKey([h] + t, k) <==> h.0 == k || HasKey(t, k)
  {
    var r := [h] + t;
    assert r[0] == h;
    if HasKey(r, k) && h.0 != k {
      var i :| 0 <= i < |r| && r[i].0 == k;
      assert t[i - 1].0 == k;
    }
    if HasKey(t, k) {
      var i :| 0 <= i < |t| && t[i].0 == k;
      assert r[i + 1].0 == k;
    }
  }

  /** A key has a positive tally exactly when it is in the counter. */
  lemma {:induction false} TallyZero(counter: Tallies, k: Option<string>)
    ensures TallyOf(counter, k) == 0 <==> !HasKey(counter, k)
    decreases |counter|
  {
    if counter != [] {
      TallyZero(counter[1..], k);
      assert counter == [counter[0]] + counter[1..];
      HasKeyCons(counter[0], counter[1..], k);
    }
  }

  /** `counter.setdefault(k, list()).append(1)`: one more for `k`, a new last
      entry when `k` is not there yet. */
  function Bump(counter: Tallies, k: Option<string>): (r: Tallies)
    ensures TallyOf(r, k) == TallyOf(counter, k) + 1
    ensures forall k' :: k' != k ==> TallyOf(r, k') == TallyOf(counter, k')
    ensures forall k' :: HasKey(r, k') <==> HasKey(counter, k') || k' == k
    ensures DistinctKeys(counter) ==> DistinctKeys(r)
    decreases |counter|
  {
    if counter == [] then
      var r := [(k, 1 as Pos)];
      assert r == [r[0]] + [];
      assert forall k' :: HasKey(r, k') <==> k' == k by {
        forall k' { HasKeyCons(r[0], [], k'); }
      }
      r
    else
      assert counter == [counter[0]] + counter[1..];
      assert forall k' :: HasKey(counter, k') <==> counter[0].0 == k' || HasKey(counter[1..], k') by {
        forall k' { HasKeyCons(counter[0], counter[1..], k'); }
      }
      assert DistinctKeys(counter) ==> !HasKey(counter[1..], counter[0].0);
      if counter[0].0 == k then
        var r := [(k, counter[0].1 + 1)] + counter[1..];
        assert r[1..] == counter[1..];
        assert forall k' :: HasKey(r, k') <==> k == k' || HasKey(counter[1..], k') by {
          forall k' { HasKeyCons(r[0], counter[1..], k'); }
        }
        r
      else
        var rest := Bump(counter[1..], k);
        var r := [counter[0]] + rest;
        assert r[1..] == rest;
        assert forall k' :: HasKey(r, k') <==> counter[0].0 == k' || HasKey(rest, k') by {
          forall k' { HasKeyCons(counter[0], rest, k'); }
        }
        r
  }

  // ----- aggregate -----

  /** The state `aggregate` works on: `countryCount`, `counter` and `maximum`. */
  datatype Agg = Agg(counts: map<string, real>, counter: Tallies, maxSet: bool)

  /** One iteration of the loop of `aggregate` over the entry `(name, count)`:
      an unrecognised name changes nothing; a recognised one raises its code's
      count to `count` when that is larger (maximum mode) or adds `count` (sum
      mode), and is tallied under the mapper's result for the code. */
  function Step(mapper: Mapper, a: Agg, e: (string, int), maximum: bool): Agg
  {
    match mapper(e.0)
    case None => a
    case Some(c) =>
      var counts :=
        if maximum then
          if c in a.counts && !(e.1 as real > a.counts[c]) then a.counts else a.counts[c := e.1 as real]
        else
          if c in a.counts then a.counts[c := a.counts[c] + e.1 as real] else a.counts[c := e.1 as real];
      Agg(counts, Bump(a.counter, mapper(c)), a.maxSet || maximum)
  }

  /** The loop of `aggregate` over the entries `es`, in order. */
  function Run(mapper: Mapper, a: Agg, es: seq<(string, int)>, maximum: bool): Agg
    decreases |es|
  {
    if es == [] then a else Step(mapper, Run(mapper, a, es[..|es| - 1], maximum), es[|es| - 1], maximum)
  }

  /** One more entry is one more step of the loop. */
  lemma RunSnoc(mapper: Mapper, a: Agg, es: seq<(string, int)>, i: nat, maximum: bool)
    requires i < |es|
    ensures Run(mapper, a, es[..i + 1], maximum) == Step(mapper, Run(mapper, a, es[..i], maximum), es[i], maximum)
  {
    assert es[..i + 1][..i] == es[..i];
  }

  /** Some entry's name maps to `c`. */
  predicate Names(mapper: Mapper, es: seq<(string, int)>, c: string) {
    exists i :: 0 <= i < |es| && mapper(es[i].0) == Some(c)
  }

  /** The sum of the counts of the entries whose name maps to `c`. */
  function SumFor(mapper: Mapper, es: seq<(string, int)>, c: string): real
    decreases |es|
  {
    if es == [] then 0.0
    else SumFor(mapper, es[..|es| - 1], c) + if mapper(es[|es| - 1].0) == Some(c) then es[|es| - 1].1 as real else 0.0
  }

  /** The number of recognised entries whose code the mapper turns into `k`. */
  function CountFor(mapper: Mapper, es: seq<(string, int)>, k: Option<string>): nat
    decreases |es|
  {
    if es == [] then 0
    else
      var m := mapper(es[|es| - 1].0);
      CountFor(mapper, es[..|es| - 1], k) + if m.Some? && mapper(m.value) == k then 1 else 0
  }

  /** `Names` of a longer prefix: the new entry, or a name of the shorter one. */
  lemma NamesSnoc(mapper: Mapper, es: seq<(string, int)>, c: string)
    requires es != []
    ensures Names(mapper, es, c) <==> Names(mapper, es[..|es| - 1], c) || mapper(es[|es| - 1].0) == Some(c)
  {
    var init := es[..|es| - 1];
    if Names(mapper, init, c) {
      var i :| 0 <= i < |init| && mapper(init[i].0) == Some(c);
      assert es[i] == init[i];
    }
    if Names(mapper, es, c) && mapper(es[|es| - 1].0) != Some(c) {
      var i :| 0 <= i < |es| && mapper(es[i].0) == Some(c);
      assert init[i] == es[i];
    }
  }

  /** The codes counted are the codes counted before and the codes of the
      recognised names. */
  lemma {:induction false} RunKeys(mapper: Mapper, a: Agg, es: seq<(string, int)>, maximum: bool, c: string)
    ensures c in Run(mapper, a, es, maximum).counts <==> c in a.counts || Names(mapper, es, c)
    decreases |es|
  {
    if es != [] {
      RunKeys(mapper, a, es[..|es| - 1], maximum, c);
      NamesSnoc(mapper, es, c);
    }
  }

  /** Sum mode: each code's count grows by the counts of its names. */
  lemma {:induction false} RunSum(mapper: Mapper, a: Agg, es: seq<(string, int)>, c: string)
    requires c in Run(mapper, a, es, false).counts
    ensures Run(mapper, a, es, false).counts[c] == (if c in a.counts then a.counts[c] else 0.0) + SumFor(mapper, es, c)
    decreases |es|
  {
    if es != [] {
      var init := es[..|es| - 1];
      RunKeys(mapper, a, init, false, c);
      if c in Run(mapper, a, init, false).counts {
        RunSum(mapper, a, init, c);
      } else {
        RunKeys(mapper, a, es, false, c);
        SumNone(mapper, init, c);
      }
    }
  }

  /** No name maps to `c`: the sum for `c` is zero. */
  lemma {:induction false} SumNone(mapper: Mapper, es: seq<(string, int)>, c: string)
    requires !Names(mapper, es, c)
    ensures SumFor(mapper, es, c) == 0.0
    decreases |es|
  {
    if es != [] {
      NamesSnoc(mapper, es, c);
      SumNone(mapper, es[..|es| - 1], c);
    }
  }

  /** Maximum mode from an empty `countryCount`: each code's count is the count
      of one of its names and at least the count of every one of them. */
  lemma {:induction false} RunMax(mapper: Mapper, a: Agg, es: seq<(string, int)>, c: string)
    requires a.counts == map[] && c in Run(mapper, a, es, true).counts
    ensures var v := Run(mapper, a, es, true).counts[c];
      (forall i :: 0 <= i < |es| && mapper(es[i].0) == Some(c) ==> es[i].1 as real <= v) &&
      (exists i :: 0 <= i < |es| && mapper(es[i].0) == Some(c) && es[i].1 as real == v)
    decreases |es|
  {
    var init := es[..|es| - 1];
    var last := es[|es| - 1];
    var v := Run(mapper, a, es, true).counts[c];
    RunKeys(mapper, a, init, true, c);
    if c in Run(mapper, a, init, true).counts {
      RunMax(mapper, a, init, c);
      var w := Run(mapper, a, init, true).counts[c];
      forall i | 0 <= i < |es| && mapper(es[i].0) == Some(c) ensures es[i].1 as real <= v {
        if i < |init| {
          assert es[i] == init[i];
        }
      }
      if v == w {
        var i :| 0 <= i < |init| && mapper(init[i].0) == Some(c) && init[i].1 as real == w;
        assert es[i] == init[i];
      } else {
        assert mapper(es[|es| - 1].0) == Some(c) && es[|es| - 1].1 as real == v;
      }
    } else {
      RunKeys(mapper, a, es, true, c);
      NamesSnoc(mapper, es, c);
      assert mapper(es[|es| - 1].0) == Some(c) && es[|es| - 1].1 as real == v;
    }
  }

  /** Each recognised name adds one to the tally of the mapper's result for its
      code; the tally is never reset. */
  lemma {:induction false} RunTally(mapper: Mapper, a: Agg, es: seq<(string, int)>, maximum: bool, k: Option<string>)
    ensures TallyOf(Run(mapper, a, es, maximum).counter, k) == TallyOf(a.counter, k) + CountFor(mapper, es, k)
    decreases |es|
  {
    if es != [] {
      RunTally(mapper, a, es[..|es| - 1], maximum, k);
    }
  }

  /** `self.maximum` ends up set exactly when it was set or maximum mode met a
      recognised name. */
  lemma {:induction false} RunMaxFlag(mapper: Mapper, a: Agg, es: seq<(string, int)>, maximum: bool)
    ensures Run(mapper, a, es, maximum).maxSet <==> a.maxSet || (maximum && exists c :: Names(mapper, es, c))
    decreases |es|
  {
    if es != [] {
      var init := es[..|es| - 1];
      RunMaxFlag(mapper, a, init, maximum);
      if mapper(es[|es| - 1].0).Some? {
        NamesSnoc(mapper, es, mapper(es[|es| - 1].0).value);
      }
      if maximum && exists c :: Names(mapper, es, c) {
        var c :| Names(mapper, es, c);
        NamesSnoc(mapper, es, c);
      }
      if maximum && exists c :: Names(mapper, init, c) {
        var c :| Names(mapper, init, c);
        NamesSnoc(mapper, es, c);
      }
    }
  }

  // ----- averageCount -----

  /** The loop of `averageCount`: in counter order, divide each key's count by
      its tally. A key that is not a code with a count is a KeyError, which
      stops the loop with the divisions made so far (`ok` is false). */
  function DivideAll(counts: map<string, real>, counter: Tallies): (r: (map<string, real>, bool))
    ensures r.0.Keys == counts.Keys
    decreases |counter|
  {
    if counter == [] then (counts, true)
    else
      match counter[0].0
      case None => (counts, false)
      case Some(c) =>
        if c !in counts then (counts, false)
        else DivideAll(counts[c := counts[c] / counter[0].1 as real], counter[1..])
  }

  /** The tally keys are distinct codes that all have a count. */
  predicate Divisible(counts: map<string, real>, counter: Tallies) {
    DistinctKeys(counter) &&
    forall i :: 0 <= i < |counter| ==> counter[i].0.Some? && counter[i].0.value in counts
  }

  /** Over distinct tally keys the loop never fails and divides each code's
      count exactly once, by its tally. */
  lemma {:induction false} DivideOnce(counts: map<string, real>, counter: Tallies, c: string)
    requires Divisible(counts, counter) && c in counts
    ensures DivideAll(counts, counter).1
    ensures DivideAll(counts, counter).0[c] ==
      if TallyOf(counter, Some(c)) > 0 then counts[c] / TallyOf(counter, Some(c)) as real else counts[c]
    decreases |counter|
  {
    if counter != [] {
      var c0 := counter[0].0.value;
      var next := counts[c0 := counts[c0] / counter[0].1 as real];
      assert Divisible(next, counter[1..]);
      DivideOnce(next, counter[1..], c);
      if c == c0 {
        assert counter == [counter[0]] + counter[1..];
        HasKeyCons(counter[0], counter[1..], Some(c));
        TallyZero(counter[1..], Some(c));
        assert !HasKey(counter[1..], Some(c));
      }
    }
  }

  /** `averageCount` is not idempotent: running its loop a second time divides
      every tallied count by its tally again. */
  lemma AverageTwice(counts: map<string, real>, counter: Tallies, c: string)
    requires Divisible(counts, counter) && c in counts && TallyOf(counter, Some(c)) > 0
    ensures var once := DivideAll(counts, counter).0;
      DivideAll(once, counter).1 &&
      DivideAll(once, counter).0[c] == counts[c] / TallyOf(counter, Some(c)) as real / TallyOf(counter, Some(c)) as real
  {
    DivideOnce(counts, counter, c);
    var once := DivideAll(counts, counter).0;
    assert Divisible(once, counter);
    DivideOnce(once, counter, c);
  }

  // ----- the averages of a fresh counter -----

  /** The mapper maps every code it returns to itself. */
  ghost predicate Idempotent(mapper: Mapper) {
    forall s :: mapper(s).Some? ==> mapper(mapper(s).value) == mapper(s)
  }

  lemma {:induction false} CountForWitness(mapper: Mapper, es: seq<(string, int)>, k: Option<string>)
    requires CountFor(mapper, es, k) > 0
    ensures exists i :: 0 <= i < |es| && mapper(es[i].0).Some? && mapper(mapper(es[i].0).value) == k
    decreases |es|
  {
    var init := es[..|es| - 1];
    var m := mapper(es[|es| - 1].0);
    if !(m.Some? && mapper(m.value) == k) {
      CountForWitness(mapper, init, k);
      var i :| 0 <= i < |init| && mapper(init[i].0).Some? && mapper(mapper(init[i].0).value) == k;
      assert es[i] == init[i];
    }
  }

  /** Aggregating keeps the tally keys distinct. */
  lemma {:induction false} RunDistinct(mapper: Mapper, a: Agg, es: seq<(string, int)>, maximum: bool)
    requires DistinctKeys(a.counter)
    ensures DistinctKeys(Run(mapper, a, es, maximum).counter)
    decreases |es|
  {
    if es != [] {
      RunDistinct(mapper, a, es[..|es| - 1], maximum);
    }
  }

  /** With a mapper that maps its codes to themselves, `averageCount` on a fresh
      `Country` (sum mode) never fails, and each code's result is the mean count
      of the names that map to it. */
  lemma AverageOfFresh(mapper: Mapper, es: seq<(string, int)>, c: string)
    requires Idempotent(mapper) && Names(mapper, es, c)
    ensures var a := Run(mapper, Agg(map[], [], false), es, false);
      var d := DivideAll(a.counts, a.counter);
      CountFor(mapper, es, Some(c)) > 0 && d.1 && c in d.0 &&
      d.0[c] == SumFor(mapper, es, c) / CountFor(mapper, es, Some(c)) as real
  {
    var a0 := Agg(map[], [], false);
    var a := Run(mapper, a0, es, false);
    RunDistinct(mapper, a0, es, false);
    forall i | 0 <= i < |a.counter| ensures a.counter[i].0.Some? && a.counter[i].0.value in a.counts {
      var k := a.counter[i].0;
      TallyPositive(a.counter, i);
      RunTally(mapper, a0, es, false, k);
      CountForWitness(mapper, es, k);
      var j :| 0 <= j < |es| && mapper(es[j].0).Some? && mapper(mapper(es[j].0).value) == k;
      assert mapper(es[j].0) == k;
      RunKeys(mapper, a0, es, false, k.value);
    }
    assert Divisible(a.counts, a.counter);
    RunKeys(mapper, a0, es, false, c);
    RunSum(mapper, a0, es, c);
    RunTally(mapper, a0, es, false, Some(c));
    var i :| 0 <= i < |es| && mapper(es[i].0) == Some(c);
    CountForPositive(mapper, es, i);
    DivideOnce(a.counts, a.counter, c);
  }

  lemma {:induction false} CountForPositive(mapper: Mapper, es: seq<(string, int)>, i: nat)
    requires Idempotent(mapper) && i < |es| && mapper(es[i].0).Some?
    ensures CountFor(mapper, es, mapper(es[i].0)) > 0
    decreases |es|
  {
    if i < |es| - 1 {
      var init := es[..|es| - 1];
      assert init[i] == es[i];
      CountForPositive(mapper, init, i);
    }
  }

  lemma {:induction false} TallyPositive(counter: Tallies, i: nat)
    requires i < |counter|
    ensures TallyOf(counter, counter[i].0) >= 1
    decreases |counter|
  {
    if counter[0].0 != counter[i].0 {
      TallyPositive(counter[1..], i - 1);
    }
  }

  // ----- the Country class -----

  /** `name in data` for the entries in insertion order. */
  predicate Listed(data: seq<(string, int)>, name: string) {
    exists i :: 0 <= i < |data| && data[i].0 == name
  }

  /** The state `averageCount` and `maxCount` start from: the stored
      aggregation, or a fresh one in the given mode when there is none yet. */
  function Base(mapper: Mapper, countryCount: Option<map<string, real>>, counter: Tallies, maxSet: bool,
                data: seq<(string, int)>, maximum: bool): Agg
  {
    if countryCount.Some? then Agg(countryCount.value, counter, maxSet)
    else Run(mapper, Agg(map[], counter, maxSet), data, maximum)
  }

  /** The fields of a `Country` that `averageCount` and `maxCount` read or
      change: `data`, `countryCount`, `counter`, `maximum` and `block`. */
  datatype CState = CState(data: seq<(string, int)>, countryCount: Option<map<string, real>>,
                           counter: Tallies, maxSet: bool, block: bool)

  /** What `averageCount()` returns and leaves behind, from the state `s` of a
      country with the given mapper and year. */
  function AverageStep(mapper: Mapper, year: int, s: CState): (r: (Result<map<string, real>>, CState))
    ensures r.1.block && r.1.data == s.data && r.1.countryCount.Some?
    ensures r.0.Ok? ==> "YEAR" in r.0.value && r.0.value["YEAR"] == year as real && r.1.countryCount == Some(r.0.value)
    ensures r.0.Err? ==> r.0.failure == KeyMissing
  {
    var a := Base(mapper, s.countryCount, s.counter, s.maxSet, s.data, false);
    var d := DivideAll(a.counts, a.counter);
    if d.1 then (Ok(d.0["YEAR" := year as real]), CState(s.data, Some(d.0["YEAR" := year as real]), a.counter, a.maxSet, true))
    else (Err(KeyMissing), CState(s.data, Some(d.0), a.counter, a.maxSet, true))
  }

  /** What `maxCount()` returns and leaves behind, from the state `s`. */
  function MaxStep(mapper: Mapper, year: int, s: CState): (r: (Result<map<string, real>>, CState))
    ensures r.1.block && r.1.data == s.data && r.1.countryCount.Some?
    ensures r.0.Ok? ==> "YEAR" in r.0.value && r.0.value["YEAR"] == year as real && r.1.countryCount == Some(r.0.value)
    ensures r.0.Err? <==> !r.1.maxSet
    ensures r.0.Err? ==> r.0.failure == AssertionFailed
  {
    var a := Base(mapper, s.countryCount, s.counter, s.maxSet, s.data, true);
    if a.maxSet then (Ok(a.counts["YEAR" := year as real]), CState(s.data, Some(a.counts["YEAR" := year as real]), a.counter, a.maxSet, true))
    else (Err(AssertionFailed), CState(s.data, Some(a.counts), a.counter, a.maxSet, true))
  }

  /** `Country`: the article counts of one year's searches, by searched name. */
  class Country {
    const mapper: Mapper
    const year: int
    var data: seq<(string, int)>
    var countryCount: Option<map<string, real>>
    var counter: Tallies
    var block: bool
    var maximum: bool

    /** The current values of the fields `averageCount` and `maxCount` touch. */
    function State(): CState
      reads this
    {
      CState(data, countryCount, counter, maximum, block)
    }

    constructor (mapper: Mapper, year: int)
      ensures this.mapper == mapper && this.year == year
      ensures data == [] && countryCount == None && counter == [] && !block && !maximum
    {
      this.mapper := mapper;
      this.year := year;
      data := [];
      countryCount := None;
      counter := [];
      block := false;
      maximum := false;
    }

    /** `__call__(country, count, force)`: blocked without `force` once a result
        was produced; otherwise the name must be new and is added. */
    method Call(country: string, count: int, force: bool) returns (r: Result<()>)
      modifies this
      ensures countryCount == old(countryCount) && counter == old(counter)
      ensures block == old(block) && maximum == old(maximum)
      ensures old(block) && !force ==> r == Ok(()) && data == old(data)
      ensures !(old(block) && !force) && Listed(old(data), country) ==> r == Err(AssertionFailed) && data == old(data)
      ensures !(old(block) && !force) && !Listed(old(data), country) ==> r == Ok(()) && data == old(data) + [(country, count)]
    {
      if block && !force {
        return Ok(());
      }
      if Listed(data, country) {
        return Err(AssertionFailed);
      }
      data := data + [(country, count)];
      return Ok(());
    }

    /** `aggregate(maximum)`: a fresh `countryCount` filled by one pass over the
        entries; `counter` and the `maximum` flag carry over and grow. */
    method Aggregate(useMaximum: bool)
      modifies this
      ensures var a := Run(mapper, Agg(map[], old(counter), old(maximum)), data, useMaximum);
        countryCount == Some(a.counts) && counter == a.counter && maximum == a.maxSet
      ensures data == old(data) && block == old(block)
    {
      var counts: map<string, real> := map[];
      var tallies, maxSet := counter, maximum;
      var entries := data;
      var i := 0;
      while i < |entries|
        invariant i <= |entries| && data == entries == old(data) && block == old(block)
        invariant Agg(counts, tallies, maxSet) == Run(mapper, Agg(map[], old(counter), old(maximum)), entries[..i], useMaximum)
      {
        ghost var before := Agg(counts, tallies, maxSet);
        var name, count := entries[i].0, entries[i].1;
        var code := mapper(name);
        if code.Some? {
          var c := code.value;
          if useMaximum {
            maxSet := true;
            if c in counts {
              if count as real > counts[c] {
                counts := counts[c := count as real];
              }
            } else {
              counts := counts[c := count as real];
            }
          } else {
            if c in counts {
              counts := counts[c := counts[c] + count as real];
            } else {
              counts := counts[c := count as real];
            }
          }
          tallies := Bump(tallies, mapper(c));
        }
        assert Agg(counts, tallies, maxSet) == Step(mapper, before, entries[i], useMaximum);
        RunSnoc(mapper, Agg(map[], old(counter), old(maximum)), entries, i, useMaximum);
        i := i + 1;
      }
      assert entries[..i] == entries;
      countryCount, counter, maximum := Some(counts), tallies, maxSet;
    }

    /** `averageCount()`: blocks further additions, aggregates by sum if nothing
        was aggregated yet, divides each tallied code's count by its tally and
        adds the year under "YEAR". A tally key without a count raises KeyError
        after the divisions made before it. */
    method AverageCount() returns (r: Result<map<string, real>>)
      modifies this
      ensures r.Ok? ==> "YEAR" in r.value && r.value["YEAR"] == year as real
      ensures block && data == old(data)
      ensures var a := Base(mapper, old(countryCount), old(counter), old(maximum), data, false);
        var d := DivideAll(a.counts, a.counter);
        counter == a.counter && maximum == a.maxSet &&
        (d.1 ==> countryCount == Some(d.0["YEAR" := year as real]) && r == Ok(d.0["YEAR" := year as real])) &&
        (!d.1 ==> countryCount == Some(d.0) && r == Err(KeyMissing))
      ensures (r, State()) == AverageStep(mapper, year, old(State()))
    {
      block := true;
      if countryCount.None? {
        Aggregate(false);
      }
      var counts := countryCount.value;
      ghost var start := counts;
      var i := 0;
      while i < |counter|
        invariant i <= |counter|
        invariant DivideAll(counts, counter[i..]) == DivideAll(start, counter)
        invariant countryCount == Some(start)
      {
        assert counter[i..][1..] == counter[i + 1..];
        var key := counter[i].0;
        if key.None? || key.value !in counts {
          countryCount := Some(counts);
          return Err(KeyMissing);
        }
        counts := counts[key.value := counts[key.value] / counter[i].1 as real];
        i := i + 1;
      }
      counts := counts["YEAR" := year as real];
      countryCount := Some(counts);
      return Ok(counts);
    }

    /** `maxCount()`: blocks further additions, aggregates by maximum if nothing
        was aggregated yet, asserts that maximum mode was used, and adds the year
        under "YEAR". */
    method MaxCount() returns (r: Result<map<string, real>>)
      modifies this
      ensures r.Ok? ==> "YEAR" in r.value && r.value["YEAR"] == year as real
      ensures block && data == old(data)
      ensures var a := Base(mapper, old(countryCount), old(counter), old(maximum), data, true);
        counter == a.counter && maximum == a.maxSet &&
        (a.maxSet ==> countryCount == Some(a.counts["YEAR" := year as real]) && r == Ok(a.counts["YEAR" := year as real])) &&
        (!a.maxSet ==> countryCount == Some(a.counts) && r == Err(AssertionFailed))
      ensures (r, State()) == MaxStep(mapper, year, old(State()))
    {
      block := true;
      if countryCount.None? {
        Aggregate(true);
      }
      if !maximum {
        return Err(AssertionFailed);
      }
      var counts := countryCount.value["YEAR" := year as real];
      countryCount := Some(counts);
      return Ok(counts);
    }
  }

  /** Once `averageCount` has aggregated by sum, `maxCount` fails its assertion:
      the stored aggregation was not made in maximum mode. */
  lemma MaxAfterAverage(mapper: Mapper, es: seq<(string, int)>)
    ensures var a := Base(mapper, None, [], false, es, false);
      !Base(mapper, Some(DivideAll(a.counts, a.counter).0), a.counter, a.maxSet, es, true).maxSet
  {
    RunMaxFlag(mapper, Agg(map[], [], false), es, false);
  }
}
