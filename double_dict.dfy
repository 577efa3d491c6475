/** `DoubleDict`: a string dictionary whose item assignment registers a pair in
    both directions, so that either member of the pair looks up the other. */
module DoubleDicts {
  import opened Wrappers
  import opened Text

  /** The dictionary after `d[key] = value`: `key` maps to `value`, `value` maps
      back to `key`, and every other entry is as before. */
  function Insert(m: map<string, string>, key: string, value: string): (r: map<string, string>)
    ensures key in r && r[key] == value
    ensures value in r && r[value] == key
    ensures r.Keys == m.Keys + {key, value}
    ensures forall x :: x in m && x != key && x != value ==> r[x] == m[x]
  {
    m[key := value][value := key]
  }

  /** Assigning `key` again does not remove the reverse entry of its earlier value. */
  lemma ReassignKeepsReverse(m: map<string, string>, key: string, v1: string, v2: string)
    requires v1 != key && v1 != v2
    ensures var r := Insert(Insert(m, key, v1), key, v2);
      r[key] == v2 && r[v2] == key && r[v1] == key
  {
  }

  /** The dictionary after assigning every pair in order, as the source's
      `for a, b in pairs: d[a] = b` loops do. */
  function InsertAll(m: map<string, string>, pairs: seq<(string, string)>): map<string, string>
    decreases |pairs|
  {
    if pairs == [] then m else InsertAll(Insert(m, pairs[0].0, pairs[0].1), pairs[1..])
  }

  /** A string mentioned by a pair, as either member. */
  predicate Mentions(pairs: seq<(string, string)>, x: string) {
    exists j :: 0 <= j < |pairs| && (pairs[j].0 == x || pairs[j].1 == x)
  }

  /** The keys after the loop are the keys before plus both members of every pair. */
  lemma {:induction false} InsertAllKeys(m: map<string, string>, pairs: seq<(string, string)>, x: string)
    ensures x in InsertAll(m, pairs) <==> x in m || Mentions(pairs, x)
    decreases |pairs|
  {
    if pairs != [] {
      InsertAllKeys(Insert(m, pairs[0].0, pairs[0].1), pairs[1..], x);
      if Mentions(pairs[1..], x) {
        var j :| 0 <= j < |pairs[1..]| && (pairs[1..][j].0 == x || pairs[1..][j].1 == x);
        assert pairs[j + 1] == pairs[1..][j];
      }
      if Mentions(pairs, x) && !(pairs[0].0 == x || pairs[0].1 == x) {
        var j :| 0 <= j < |pairs| && (pairs[j].0 == x || pairs[j].1 == x);
        assert pairs[1..][j - 1] == pairs[j];
      }
    }
  }

  /** An entry no pair mentions is left as it was. */
  lemma {:induction false} InsertAllUntouched(m: map<string, string>, pairs: seq<(string, string)>, x: string)
    requires forall j :: 0 <= j < |pairs| ==> pairs[j].0 != x && pairs[j].1 != x
    ensures x in InsertAll(m, pairs) <==> x in m
    ensures x in m ==> InsertAll(m, pairs)[x] == m[x]
    decreases |pairs|
  {
    if pairs != [] {
      InsertAllUntouched(Insert(m, pairs[0].0, pairs[0].1), pairs[1..], x);
    }
  }

  /** The first member of pair `i` maps to its second member when no later pair
      mentions it. */
  lemma {:induction false} InsertAllForward(m: map<string, string>, pairs: seq<(string, string)>, i: nat)
    requires i < |pairs|
    requires forall j :: i < j < |pairs| ==> pairs[j].0 != pairs[i].0 && pairs[j].1 != pairs[i].0
    ensures pairs[i].0 in InsertAll(m, pairs) && InsertAll(m, pairs)[pairs[i].0] == pairs[i].1
    decreases |pairs|
  {
    if i == 0 {
      InsertAllUntouched(Insert(m, pairs[0].0, pairs[0].1), pairs[1..], pairs[0].0);
    } else {
      InsertAllForward(Insert(m, pairs[0].0, pairs[0].1), pairs[1..], i - 1);
    }
  }

  /** The second member of pair `i` maps back to its first member when no later
      pair mentions it. */
  lemma {:induction false} InsertAllBackward(m: map<string, string>, pairs: seq<(string, string)>, i: nat)
    requires i < |pairs|
    requires forall j :: i < j < |pairs| ==> pairs[j].0 != pairs[i].1 && pairs[j].1 != pairs[i].1
    ensures pairs[i].1 in InsertAll(m, pairs) && InsertAll(m, pairs)[pairs[i].1] == pairs[i].0
    decreases |pairs|
  {
    if i == 0 {
      InsertAllUntouched(Insert(m, pairs[0].0, pairs[0].1), pairs[1..], pairs[0].1);
    } else {
      InsertAllBackward(Insert(m, pairs[0].0, pairs[0].1), pairs[1..], i - 1);
    }
  }

  /** One more pair: the step of the assignment loop. */
  lemma {:induction false} InsertAllSnoc(m: map<string, string>, ps: seq<(string, string)>, p: (string, string))
    ensures InsertAll(m, ps + [p]) == Insert(InsertAll(m, ps), p.0, p.1)
    decreases |ps|
  {
    if ps != [] {
      assert (ps + [p])[1..] == ps[1..] + [p];
      InsertAllSnoc(Insert(m, ps[0].0, ps[0].1), ps[1..], p);
    }
  }

  /** Every pair with both members upper-cased, as the mapper constructors store them. */
  function UpperPairs(pairs: seq<(string, string)>): (r: seq<(string, string)>)
    ensures |r| == |pairs|
    ensures forall i :: 0 <= i < |pairs| ==> r[i] == (Upper(pairs[i].0), Upper(pairs[i].1))
  {
    seq(|pairs|, i requires 0 <= i < |pairs| => (Upper(pairs[i].0), Upper(pairs[i].1)))
  }

  /** The dictionary left by `for name, ID in nameList: d[name.upper()] = ID.upper()`. */
  function UpperTable(nameList: seq<(string, string)>): map<string, string>
  {
    InsertAll(map[], UpperPairs(nameList))
  }

  /** `x` is no member of any pair once upper-cased. */
  predicate Avoids(nameList: seq<(string, string)>, x: string) {
    forall j :: 0 <= j < |nameList| ==> Upper(nameList[j].0) != x && Upper(nameList[j].1) != x
  }

  /** Every key and every value of a dictionary holds no lower-case letter. */
  predicate AllUpper(m: map<string, string>) {
    forall k | k in m :: HasNoLowerCase(k) && HasNoLowerCase(m[k])
  }

  lemma {:induction false} InsertAllUpper(m: map<string, string>, pairs: seq<(string, string)>)
    requires AllUpper(m)
    requires forall j :: 0 <= j < |pairs| ==> HasNoLowerCase(pairs[j].0) && HasNoLowerCase(pairs[j].1)
    ensures AllUpper(InsertAll(m, pairs))
    decreases |pairs|
  {
    if pairs != [] {
      var n := Insert(m, pairs[0].0, pairs[0].1);
      assert AllUpper(n);
      InsertAllUpper(n, pairs[1..]);
    }
  }

  /** Whatever the pairs, the stored keys and the codes or names a lookup
      returns are upper-case. */
  lemma TableUpper(nameList: seq<(string, string)>)
    ensures AllUpper(UpperTable(nameList))
  {
    var ups := UpperPairs(nameList);
    forall j | 0 <= j < |ups| ensures HasNoLowerCase(ups[j].0) && HasNoLowerCase(ups[j].1) {
      UpperIdempotent(nameList[j].0);
      UpperIdempotent(nameList[j].1);
    }
    InsertAllUpper(map[], ups);
  }

  /** The stored keys are exactly the upper-cased members of the pairs. */
  lemma TableKeys(nameList: seq<(string, string)>, x: string)
    ensures x in UpperTable(nameList) <==>
      exists j :: 0 <= j < |nameList| && (Upper(nameList[j].0) == x || Upper(nameList[j].1) == x)
  {
    var ups := UpperPairs(nameList);
    InsertAllKeys(map[], ups, x);
    if Mentions(ups, x) {
      var j :| 0 <= j < |ups| && (ups[j].0 == x || ups[j].1 == x);
      assert Upper(nameList[j].0) == x || Upper(nameList[j].1) == x;
    }
    if exists j :: 0 <= j < |nameList| && (Upper(nameList[j].0) == x || Upper(nameList[j].1) == x) {
      var j :| 0 <= j < |nameList| && (Upper(nameList[j].0) == x || Upper(nameList[j].1) == x);
      assert ups[j].0 == x || ups[j].1 == x;
    }
  }

  /** A string that is no pair member is not stored. */
  lemma AvoidedMissing(nameList: seq<(string, string)>, x: string)
    requires Avoids(nameList, x)
    ensures x !in UpperTable(nameList)
  {
    TableKeys(nameList, x);
  }

  /** Pair `i`'s name finds its upper-cased code, and its code finds its
      upper-cased name, when no later pair repeats them. */
  lemma PairBothWays(nameList: seq<(string, string)>, i: nat)
    requires i < |nameList|
    requires Avoids(nameList[i + 1..], Upper(nameList[i].0))
    requires Avoids(nameList[i + 1..], Upper(nameList[i].1))
    ensures var t := UpperTable(nameList);
      Upper(nameList[i].0) in t && t[Upper(nameList[i].0)] == Upper(nameList[i].1) &&
      Upper(nameList[i].1) in t && t[Upper(nameList[i].1)] == Upper(nameList[i].0)
  {
    var ups := UpperPairs(nameList);
    forall j | i < j < |ups|
      ensures ups[j].0 != ups[i].0 && ups[j].1 != ups[i].0 && ups[j].0 != ups[i].1 && ups[j].1 != ups[i].1
    {
      assert nameList[i + 1..][j - i - 1] == nameList[j];
    }
    InsertAllForward(map[], ups, i);
    InsertAllBackward(map[], ups, i);
  }

  /** The mutable dictionary itself. */
  class DoubleDict {
    var entries: map<string, string>

    constructor ()
      ensures entries == map[]
    {
      entries := map[];
    }

    /** `d[key] = value`: two plain assignments, forward then backward. */
    method Set(key: string, value: string)
      modifies this
      ensures entries == Insert(old(entries), key, value)
    {
      entries := entries[key := value];
      entries := entries[value := key];
    }

    /** `for a, b in pairs: d[a] = b`. */
    method SetAll(pairs: seq<(string, string)>)
      modifies this
      ensures entries == InsertAll(old(entries), pairs)
    {
      var i := 0;
      while i < |pairs|
        invariant i <= |pairs|
        invariant InsertAll(entries, pairs[i..]) == InsertAll(old(entries), pairs)
      {
        assert pairs[i..][1..] == pairs[i + 1..];
        Set(pairs[i].0, pairs[i].1);
        i := i + 1;
      }
    }

    /** `key in d`, then `d[key]`: the source's lookups return a sentinel rather
        than raise when the key is absent. */
    function Get(key: string): (r: Option<string>)
      reads this
      ensures r.Some? <==> key in entries
      ensures r.Some? ==> r.value == entries[key]
    {
      if key in entries then Some(entries[key]) else None
    }
  }
}
