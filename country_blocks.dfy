/** The building blocks of `countryCodeMapper.countryMap`
    (lib/newspaper/countryCodeMapper.py:29-661): the literal is a run of blocks,
    each a code followed by its names and demonyms, and a Python dictionary
    literal keeps the value of the later line when a key is written twice. */
module CountryBlocks {

  predicate IsCapital(c: char) { 'A' <= c <= 'Z' }

  /** A code as the table writes it: three capital letters. */
  type Code = s: string | |s| == 3 && IsCapital(s[0]) && IsCapital(s[1]) && IsCapital(s[2])
    witness "ABW"

  /** A country name or demonym: capitalised and never three characters long. */
  type Synonym = s: string | |s| != 3 && s != "" && IsCapital(s[0])
    witness "Aruba"

  /** One block of the literal: the line `"CODE":"CODE"` followed by one line
      `"<synonym>":"CODE"` per synonym. */
  datatype Group = Group(code: Code, synonyms: seq<Synonym>)

  /** The keys a block writes. */
  predicate Mentions(g: Group, x: string) {
    x == g.code || x in g.synonyms
  }

  /** The dictionary after the lines of one block: every key it writes maps to
      its code, and every other key is as before. */
  function AddGroup(m: map<string, string>, g: Group): (r: map<string, string>)
    ensures forall x :: x in r <==> x in m || Mentions(g, x)
    ensures forall x :: Mentions(g, x) ==> r[x] == g.code
    ensures forall x :: x in m && !Mentions(g, x) ==> r[x] == m[x]
  {
    m[g.code := g.code] + map s: string | s in g.synonyms :: g.code
  }

  /** The dictionary a literal with the blocks `gs` builds on top of `m`: a key
      written twice keeps the value of its later line. */
  function Extend(m: map<string, string>, gs: seq<Group>): map<string, string>
    decreases |gs|
  {
    if gs == [] then m else Extend(AddGroup(m, gs[0]), gs[1..])
  }

  /** The shape of the table: every key is capitalised, every value is a code
      that is itself a key mapping to itself, and a three-character key is such
      a code. */
  predicate Canonical(m: map<string, string>) {
    forall k | k in m ::
      k != "" && IsCapital(k[0]) && |m[k]| == 3 && m[k] in m && m[m[k]] == m[k] && (|k| == 3 ==> m[k] == k)
  }

  lemma AddGroupCanonical(m: map<string, string>, g: Group)
    requires Canonical(m)
    ensures Canonical(AddGroup(m, g))
  {
    var r := AddGroup(m, g);
    forall k | k in r
      ensures k != "" && IsCapital(k[0]) && |r[k]| == 3 && r[k] in r && r[r[k]] == r[k] && (|k| == 3 ==> r[k] == k)
    {
      if Mentions(g, k) {
        assert r[g.code] == g.code;
      } else {
        var w := m[k];
        assert w in r;
        if Mentions(g, w) {
          assert w == g.code;
        }
      }
    }
  }

  lemma {:induction false} ExtendCanonical(m: map<string, string>, gs: seq<Group>)
    requires Canonical(m)
    ensures Canonical(Extend(m, gs))
    decreases |gs|
  {
    if gs != [] {
      AddGroupCanonical(m, gs[0]);
      ExtendCanonical(AddGroup(m, gs[0]), gs[1..]);
    }
  }

  /** An entry of the dictionary a literal builds from nothing: its key is
      capitalised and its value is a code that maps to itself. */
  lemma BuiltEntry(gs: seq<Group>, k: string)
    requires k in Extend(map[], gs)
    ensures k != "" && IsCapital(k[0])
    ensures |Extend(map[], gs)[k]| == 3 && Extend(map[], gs)[k] in Extend(map[], gs)
    ensures Extend(map[], gs)[Extend(map[], gs)[k]] == Extend(map[], gs)[k]
    ensures |k| == 3 ==> Extend(map[], gs)[k] == k
  {
    ExtendCanonical(map[], gs);
  }

  /** A literal made of two parts builds the second part on top of the first. */
  lemma {:induction false} ExtendConcat(m: map<string, string>, a: seq<Group>, b: seq<Group>)
    ensures Extend(m, a + b) == Extend(Extend(m, a), b)
    decreases |a|
  {
    if a == [] {
      assert a + b == b;
    } else {
      assert (a + b)[0] == a[0];
      assert (a + b)[1..] == a[1..] + b;
      assert Extend(m, a + b) == Extend(AddGroup(m, a[0]), a[1..] + b);
      ExtendConcat(AddGroup(m, a[0]), a[1..], b);
    }
  }

  /** Blocks that do not write `x` leave its entry as it was. */
  lemma {:induction false} ExtendUntouched(m: map<string, string>, gs: seq<Group>, x: string)
    requires forall g | g in gs :: !Mentions(g, x)
    ensures x in Extend(m, gs) <==> x in m
    ensures x in m ==> Extend(m, gs)[x] == m[x]
    decreases |gs|
  {
    if gs != [] {
      assert gs[0] in gs;
      ExtendUntouched(AddGroup(m, gs[0]), gs[1..], x);
    }
  }

  /** A key written by block `i` and by no later block maps to the code of block `i`. */
  lemma {:induction false} ExtendLast(m: map<string, string>, gs: seq<Group>, i: nat, x: string)
    requires i < |gs| && Mentions(gs[i], x)
    requires forall j :: i < j < |gs| ==> !Mentions(gs[j], x)
    ensures x in Extend(m, gs) && Extend(m, gs)[x] == gs[i].code
    decreases |gs|
  {
    if i == 0 {
      forall g | g in gs[1..] ensures !Mentions(g, x) {
        var j :| 0 <= j < |gs[1..]| && gs[1..][j] == g;
        assert gs[j + 1] == g;
      }
      ExtendUntouched(AddGroup(m, gs[0]), gs[1..], x);
    } else {
      ExtendLast(AddGroup(m, gs[0]), gs[1..], i - 1, x);
    }
  }

  /** Block `i` is the last block that writes `x`. */
  predicate LastWriter(gs: seq<Group>, i: int, x: string) {
    0 <= i < |gs| && Mentions(gs[i], x) && forall j :: i < j < |gs| ==> !Mentions(gs[j], x)
  }

  /** A key written by block `j` has a last writer at or after `j`. */
  lemma {:induction false} LastWriterExists(gs: seq<Group>, x: string, j: nat)
    requires j < |gs| && Mentions(gs[j], x)
    ensures exists i :: j <= i && LastWriter(gs, i, x)
    decreases |gs| - j
  {
    if exists k :: j < k < |gs| && Mentions(gs[k], x) {
      var k :| j < k < |gs| && Mentions(gs[k], x);
      LastWriterExists(gs, x, k);
    } else {
      assert LastWriter(gs, j, x);
    }
  }

  /** A key the blocks add maps to the code of the last block that writes it. */
  lemma ExtendSource(m: map<string, string>, gs: seq<Group>, x: string)
    requires x in Extend(m, gs) && x !in m
    ensures exists i :: LastWriter(gs, i, x) && Extend(m, gs)[x] == gs[i].code
  {
    if forall g | g in gs :: !Mentions(g, x) {
      ExtendUntouched(m, gs, x);
      assert false;
    }
    var g :| g in gs && Mentions(g, x);
    var j :| 0 <= j < |gs| && gs[j] == g;
    LastWriterExists(gs, x, j);
    var i :| j <= i && LastWriter(gs, i, x);
    ExtendLast(m, gs, i, x);
  }

  /** In a literal made of a prefix `a`, a middle `d` and a suffix `b`, a key
      last written by block `i` of the middle maps to that block's code. */
  lemma ExtendMiddle(m: map<string, string>, a: seq<Group>, d: seq<Group>, b: seq<Group>, i: nat, x: string)
    requires LastWriter(d, i, x)
    requires forall g | g in b :: !Mentions(g, x)
    ensures x in Extend(m, a + d + b) && Extend(m, a + d + b)[x] == d[i].code
  {
    ExtendConcat(m, a + d, b);
    ExtendConcat(m, a, d);
    ExtendLast(Extend(m, a), d, i, x);
    ExtendUntouched(Extend(m, a + d), b, x);
  }

  /** Synonyms are never three characters long, so a block writes a
      three-character key only as its code. */
  lemma ThreeCharacterKeyIsCode(gs: seq<Group>, x: string)
    requires |x| == 3
    requires forall g | g in gs :: g.code[0] != x[0]
    ensures forall g | g in gs :: !Mentions(g, x)
  {
  }

  /** `ExtendMiddle` behind a further prefix `p`. */
  lemma ExtendMiddleAfter(m: map<string, string>, p: seq<Group>, a: seq<Group>, d: seq<Group>, b: seq<Group>, i: nat, x: string)
    requires LastWriter(d, i, x)
    requires forall g | g in b :: !Mentions(g, x)
    ensures x in Extend(m, p + (a + d + b)) && Extend(m, p + (a + d + b))[x] == d[i].code
  {
    ExtendConcat(m, p, a + d + b);
    ExtendMiddle(Extend(m, p), a, d, b, i, x);
  }

  /** When neither the prefix nor the suffix has a block with code `c`, a key
      added under `c` is last written by a block of the middle with that code. */
  lemma ExtendMiddleSource(m: map<string, string>, a: seq<Group>, d: seq<Group>, b: seq<Group>, x: string)
    requires x in Extend(m, a + d + b) && x !in m
    requires forall g | g in a :: g.code != Extend(m, a + d + b)[x]
    requires forall g | g in b :: g.code != Extend(m, a + d + b)[x]
    ensures exists i :: LastWriter(d, i, x) && d[i].code == Extend(m, a + d + b)[x]
  {
    var gs := a + d + b;
    ExtendSource(m, gs, x);
    var i :| LastWriter(gs, i, x) && Extend(m, gs)[x] == gs[i].code;
    if i < |a| {
      assert false;
    } else if i >= |a| + |d| {
      assert false;
    }
    assert gs[i] == d[i - |a|];
    forall j | i - |a| < j < |d| ensures !Mentions(d[j], x) {
      assert gs[j + |a|] == d[j];
    }
    assert LastWriter(d, i - |a|, x);
  }

  /** The keys added are exactly the keys some block writes. */
  lemma {:induction false} ExtendKeys(m: map<string, string>, gs: seq<Group>, x: string)
    ensures x in Extend(m, gs) <==> x in m || x in ListedKeys(gs)
    decreases |gs|
  {
    if gs != [] {
      ExtendKeys(AddGroup(m, gs[0]), gs[1..], x);
    }
  }

  /** The dictionary's key order lists each of its keys once. */
  lemma BuiltKeyOrder(gs: seq<Group>)
    ensures NoRepeats(Distinct(ListedKeys(gs)))
    ensures forall k :: k in Distinct(ListedKeys(gs)) <==> k in Extend(map[], gs)
  {
    forall k {
      ExtendKeys(map[], gs, k);
    }
  }

  /** Every key the literal writes, in literal order, repeats included. */
  function ListedKeys(gs: seq<Group>): seq<string>
    decreases |gs|
  {
    if gs == [] then []
    else
      var head: seq<string> := [gs[0].code];
      head + gs[0].synonyms + ListedKeys(gs[1..])
  }

  /** The keys listed are exactly the keys some block writes. */
  lemma {:induction false} ListedKeysMention(gs: seq<Group>, x: string)
    ensures x in ListedKeys(gs) <==> exists i :: 0 <= i < |gs| && Mentions(gs[i], x)
    decreases |gs|
  {
    if gs != [] {
      ListedKeysMention(gs[1..], x);
      if exists i :: 0 <= i < |gs[1..]| && Mentions(gs[1..][i], x) {
        var i :| 0 <= i < |gs[1..]| && Mentions(gs[1..][i], x);
        assert Mentions(gs[i + 1], x);
      }
      if exists i :: 0 <= i < |gs| && Mentions(gs[i], x) {
        var i :| 0 <= i < |gs| && Mentions(gs[i], x);
        if i > 0 {
          assert Mentions(gs[1..][i - 1], x);
        }
      }
    }
  }

  predicate NoRepeats(ks: seq<string>) {
    forall i, j :: 0 <= i < j < |ks| ==> ks[i] != ks[j]
  }

  lemma NoRepeatsTail(ks: seq<string>)
    requires ks != []
    ensures NoRepeats(ks) ==> NoRepeats(ks[1..]) && ks[0] !in ks[1..]
  {
  }

  /** The keys of `ks` in order of first appearance: the order in which a Python
      dictionary lists the keys of a literal. */
  function Distinct(ks: seq<string>): (d: seq<string>)
    ensures forall x :: x in d <==> x in ks
    ensures NoRepeats(d)
  {
    if ks == [] then []
    else
      var last := ks[|ks| - 1];
      var d := Distinct(ks[..|ks| - 1]);
      assert ks == ks[..|ks| - 1] + [last];
      if last in d then d else d + [last]
  }

  /** The entries of `ks` with more than three characters, in order. */
  function LongerThanThree(ks: seq<string>): (r: seq<string>)
    ensures forall x :: x in r <==> x in ks && |x| > 3
    ensures NoRepeats(ks) ==> NoRepeats(r)
  {
    if ks == [] then []
    else
      var rest := LongerThanThree(ks[1..]);
      assert forall x :: x in ks <==> x == ks[0] || x in ks[1..];
      NoRepeatsTail(ks);
      if |ks[0]| > 3 then [ks[0]] + rest else rest
  }

  /** The entries of `ks` with exactly three characters, in order. */
  function ExactlyThree(ks: seq<string>): (r: seq<string>)
    ensures forall x :: x in r <==> x in ks && |x| == 3
    ensures NoRepeats(ks) ==> NoRepeats(r)
  {
    if ks == [] then []
    else
      var rest := ExactlyThree(ks[1..]);
      assert forall x :: x in ks <==> x == ks[0] || x in ks[1..];
      NoRepeatsTail(ks);
      if |ks[0]| == 3 then [ks[0]] + rest else rest
  }


}
