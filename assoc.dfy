/** Dictionaries filled by a loop of plain assignments `d[k] = v`: the later of
    two assignments to the same key wins. */
module Assoc {
  /** The dictionary after assigning every pair of `ps` in order. */
  function Update<K, V>(m: map<K, V>, ps: seq<(K, V)>): map<K, V>
    decreases |ps|
  {
    if ps == [] then m else Update(m, ps[..|ps| - 1])[ps[|ps| - 1].0 := ps[|ps| - 1].1]
  }

  /** One more assignment. */
  lemma UpdateSnoc<K, V>(m: map<K, V>, ps: seq<(K, V)>, p: (K, V))
    ensures Update(m, ps + [p]) == Update(m, ps)[p.0 := p.1]
  {
    assert (ps + [p])[..|ps|] == ps;
  }

  /** Pair `i` is the last one assigning key `k`. */
  ghost predicate LastFor<K, V>(ps: seq<(K, V)>, i: int, k: K) {
    0 <= i < |ps| && ps[i].0 == k && forall j :: i < j < |ps| ==> ps[j].0 != k
  }

  /** A key is present afterwards iff it was present before or some pair assigns it. */
  lemma {:induction false} UpdateKeys<K, V>(m: map<K, V>, ps: seq<(K, V)>, k: K)
    ensures k in Update(m, ps) <==> k in m || exists i :: 0 <= i < |ps| && ps[i].0 == k
    decreases |ps|
  {
    if ps != [] {
      var init := ps[..|ps| - 1];
      UpdateKeys(m, init, k);
      if exists i :: 0 <= i < |init| && init[i].0 == k {
        var i :| 0 <= i < |init| && init[i].0 == k;
        assert ps[i].0 == k;
      }
      if exists i :: 0 <= i < |ps| && ps[i].0 == k {
        var i :| 0 <= i < |ps| && ps[i].0 == k;
        if i < |init| {
          assert init[i].0 == k;
        }
      }
    }
  }

  /** A key no pair assigns keeps its old value. */
  lemma {:induction false} UpdateUntouched<K, V>(m: map<K, V>, ps: seq<(K, V)>, k: K)
    requires k in m
    requires forall i :: 0 <= i < |ps| ==> ps[i].0 != k
    ensures k in Update(m, ps) && Update(m, ps)[k] == m[k]
    decreases |ps|
  {
    if ps != [] {
      UpdateUntouched(m, ps[..|ps| - 1], k);
    }
  }

  /** The value of a key is the one given by the last pair assigning it. */
  lemma {:induction false} UpdateLast<K, V>(m: map<K, V>, ps: seq<(K, V)>, i: int, k: K)
    requires LastFor(ps, i, k)
    ensures k in Update(m, ps) && Update(m, ps)[k] == ps[i].1
    decreases |ps|
  {
    var init := ps[..|ps| - 1];
    if i < |ps| - 1 {
      assert LastFor(init, i, k);
      UpdateLast(m, init, i, k);
    }
  }

  /** Every key that some pair assigns has a last assigning pair. */
  lemma {:induction false} LastExists<K, V>(ps: seq<(K, V)>, j: int)
    requires 0 <= j < |ps|
    ensures exists i :: LastFor(ps, i, ps[j].0)
    decreases |ps| - j
  {
    if !LastFor(ps, j, ps[j].0) {
      var l :| j < l < |ps| && ps[l].0 == ps[j].0;
      LastExists(ps, l);
    }
  }
}
