/** The sequence helpers of lib/utils.py: `splitNA`, which cuts a series with
    missing values into chunks between consecutive present values, and
    `Settings.line`, which turns a plot index into a colour and a line style. */
module Utils {
  import opened Wrappers

  // ----- splitNA -----

  /** `y` holds a value at position `p`. */
  predicate IsPresent<Y>(y: seq<Option<Y>>, p: int) {
    0 <= p < |y| && y[p].Some?
  }

  /** The positions at or after `k` where `y` holds a value, in increasing order:
      `np.where(pd.notnull(y))[0]` when `k` is 0. */
  function PresentFrom<Y>(y: seq<Option<Y>>, k: nat): (idx: seq<nat>)
    ensures forall j :: 0 <= j < |idx| ==> k <= idx[j] < |y|
    ensures forall j, l :: 0 <= j < l < |idx| ==> idx[j] < idx[l]
    decreases |y| - k
  {
    if k >= |y| then []
    else if y[k].Some? then [k] + PresentFrom(y, k + 1)
    else PresentFrom(y, k + 1)
  }

  /** Every listed position holds a value. */
  lemma {:induction false} PresentSound<Y>(y: seq<Option<Y>>, k: nat, j: nat)
    requires j < |PresentFrom(y, k)|
    ensures IsPresent(y, PresentFrom(y, k)[j])
    decreases |y| - k
  {
    if k < |y| && !(y[k].Some? && j == 0) {
      PresentSound(y, k + 1, if y[k].Some? then j - 1 else j);
    }
  }

  /** Every position at or after `k` that holds a value is listed. */
  lemma {:induction false} PresentComplete<Y>(y: seq<Option<Y>>, k: nat, p: nat)
    requires k <= p && IsPresent(y, p)
    ensures exists j :: 0 <= j < |PresentFrom(y, k)| && PresentFrom(y, k)[j] == p
    decreases |y| - k
  {
    if p > k {
      PresentComplete(y, k + 1, p);
      var j :| 0 <= j < |PresentFrom(y, k + 1)| && PresentFrom(y, k + 1)[j] == p;
      if y[k].Some? {
        assert PresentFrom(y, k) == [k] + PresentFrom(y, k + 1);
        assert PresentFrom(y, k)[j + 1] == p;
      } else {
        assert PresentFrom(y, k) == PresentFrom(y, k + 1);
      }
    } else {
      assert PresentFrom(y, k) == [k] + PresentFrom(y, k + 1);
      assert PresentFrom(y, k)[0] == p;
    }
  }

  function Present<Y>(y: seq<Option<Y>>): seq<nat>
  {
    PresentFrom(y, 0)
  }

  /** Python's `x[lo:hi]` for `0 <= lo <= hi`: the bounds are clamped to the length. */
  function Take<X>(x: seq<X>, lo: nat, hi: nat): (r: seq<X>)
    requires lo <= hi
    ensures hi <= |x| ==> r == x[lo..hi]
    ensures |r| <= hi - lo
  {
    if hi <= |x| then x[lo..hi] else if lo <= |x| then x[lo..] else []
  }

  /** `splitNA(x, y)`: for each pair of consecutive present positions `a < b`
      of `y`, the chunk `y[a:b+1]` and the matching `x[a:b+1]`. */
  function SplitNA<X, Y>(x: seq<X>, y: seq<Option<Y>>): (r: (seq<seq<X>>, seq<seq<Option<Y>>>))
    ensures |r.0| == |r.1| == if |Present(y)| == 0 then 0 else |Present(y)| - 1
  {
    var idx := Present(y);
    if |idx| == 0 then ([], [])
    else (seq(|idx| - 1, i requires 0 <= i < |idx| - 1 => XChunk(x, y, i)),
          seq(|idx| - 1, i requires 0 <= i < |idx| - 1 => YChunk(y, i)))
  }

  /** `y[idx[i-1]:idx[i]+1]` for the source's `i`, here counted from 0. */
  function YChunk<Y>(y: seq<Option<Y>>, i: nat): seq<Option<Y>>
    requires i + 1 < |Present(y)|
  {
    y[Present(y)[i]..Present(y)[i + 1] + 1]
  }

  /** `x[idx[i-1]:idx[i]+1]`, clamped when `x` is shorter than `y`. */
  function XChunk<X, Y>(x: seq<X>, y: seq<Option<Y>>, i: nat): seq<X>
    requires i + 1 < |Present(y)|
  {
    Take(x, Present(y)[i], Present(y)[i + 1] + 1)
  }

  /** Chunk `i` of `y` runs from the `i`-th present position to the next one,
      both ends included, and its `x` chunk covers the same positions. */
  lemma ChunkBounds<X, Y>(x: seq<X>, y: seq<Option<Y>>, i: nat)
    requires i + 1 < |Present(y)|
    ensures var idx := Present(y);
      SplitNA(x, y).1[i] == y[idx[i]..idx[i + 1] + 1] &&
      (|x| == |y| ==> SplitNA(x, y).0[i] == x[idx[i]..idx[i + 1] + 1])
  {
  }

  /** Every chunk of `y` starts and ends on a present value and holds only
      missing values strictly inside. */
  lemma ChunkShape<X, Y>(x: seq<X>, y: seq<Option<Y>>, i: nat)
    requires i < |SplitNA(x, y).1|
    ensures var c := SplitNA(x, y).1[i];
      |c| >= 2 && c[0].Some? && c[|c| - 1].Some? &&
      forall p :: 0 < p < |c| - 1 ==> c[p].None?
  {
    var idx := Present(y);
    var c := SplitNA(x, y).1[i];
    assert c == y[idx[i]..idx[i + 1] + 1];
    PresentSound(y, 0, i);
    PresentSound(y, 0, i + 1);
    forall p | 0 < p < |c| - 1 ensures c[p].None? {
      if c[p].Some? {
        PresentComplete(y, 0, idx[i] + p);
      }
    }
  }

  /** Consecutive chunks share exactly their boundary value: the last entry of
      one chunk is the first entry of the next. */
  lemma ChunksShareBoundary<X, Y>(x: seq<X>, y: seq<Option<Y>>, i: nat)
    requires i + 1 < |SplitNA(x, y).1|
    ensures var cs := SplitNA(x, y).1;
      cs[i][|cs[i]| - 1] == cs[i + 1][0]
  {
  }

  /** A missing value before the first or after the last present value belongs
      to no chunk: every chunk lies between those two positions. */
  lemma ChunksWithinPresent<X, Y>(x: seq<X>, y: seq<Option<Y>>, i: nat)
    requires i < |SplitNA(x, y).1|
    ensures var idx := Present(y);
      idx[0] <= idx[i] && idx[i + 1] <= idx[|idx| - 1] &&
      (forall p :: 0 <= p < idx[0] ==> y[p].None?) &&
      (forall p :: idx[|idx| - 1] < p < |y| ==> y[p].None?)
  {
    var idx := Present(y);
    forall p | 0 <= p < idx[0] ensures y[p].None? {
      if y[p].Some? {
        PresentComplete(y, 0, p);
      }
    }
    forall p | idx[|idx| - 1] < p < |y| ensures y[p].None? {
      if y[p].Some? {
        PresentComplete(y, 0, p);
      }
    }
  }

  /** Gluing the chunks back together, each shared boundary once. */
  function Glue<Y>(cs: seq<seq<Y>>): seq<Y>
  {
    if |cs| == 0 then []
    else if |cs| == 1 || |cs[1]| == 0 then cs[0]
    else cs[0] + Glue(cs[1..])[1..]
  }

  /** `cs` are the chunks of `y` between the consecutive positions of `idx`. */
  ghost predicate ChunksOf<Y>(y: seq<Y>, idx: seq<nat>, cs: seq<seq<Y>>) {
    |idx| >= 2 && |cs| == |idx| - 1 &&
    (forall j :: 0 <= j < |idx| ==> idx[j] < |y|) &&
    (forall j, l :: 0 <= j < l < |idx| ==> idx[j] < idx[l]) &&
    (forall j :: 0 <= j < |cs| ==> idx[j] < idx[j + 1] && cs[j] == y[idx[j]..idx[j + 1] + 1])
  }

  /** Glued chunks give back `y` from the first to the last position of `idx`. */
  lemma {:induction false} GlueRange<Y>(y: seq<Y>, idx: seq<nat>, cs: seq<seq<Y>>)
    requires ChunksOf(y, idx, cs)
    ensures Glue(cs) == y[idx[0]..idx[|idx| - 1] + 1]
    decreases |cs|
  {
    if |cs| > 1 {
      assert ChunksOf(y, idx[1..], cs[1..]);
      assert cs[1] == y[idx[1]..idx[2] + 1];
      GlueRange(y, idx[1..], cs[1..]);
      assert y[idx[0]..idx[|idx| - 1] + 1] == y[idx[0]..idx[1] + 1] + y[idx[1]..idx[|idx| - 1] + 1][1..];
    }
  }

  /** The chunks of `y`, glued at their shared boundaries, are exactly `y` from
      its first present value to its last: nothing inside is lost or repeated. */
  lemma GlueChunks<X, Y>(x: seq<X>, y: seq<Option<Y>>)
    requires |Present(y)| >= 2
    ensures var idx := Present(y);
      Glue(SplitNA(x, y).1) == y[idx[0]..idx[|idx| - 1] + 1]
  {
    SplitChunks(x, y);
    GlueRange(y, Present(y), SplitNA(x, y).1);
  }

  /** The `y` chunks of `splitNA` lie between consecutive present positions. */
  lemma SplitChunks<X, Y>(x: seq<X>, y: seq<Option<Y>>)
    requires |Present(y)| >= 2
    ensures ChunksOf(y, Present(y), SplitNA(x, y).1)
  {
    var idx, cs := Present(y), SplitNA(x, y).1;
    forall j | 0 <= j < |cs| ensures idx[j] < idx[j + 1] && cs[j] == y[idx[j]..idx[j + 1] + 1] {
      assert cs[j] == YChunk(y, j);
    }
  }

  // ----- Settings.line -----

  /** `Settings.colors` and `Settings.linestyle`. */
  const Colors: seq<string> := ["blue", "green", "red", "cyan", "magenta", "black"]
  const LineStyles: seq<string> := ["solid", "dashed"]

  /** What `line(idx)` returns or raises, stated by division: the colour is
      `idx mod 6` and the style `idx div 6`; a negative index picks a colour
      from the end (IndexError below -6), and the assertion `i <= 2` lets
      `i == 2` through to an IndexError on the two-element style list. */
  function LineOf(idx: int): Result<(string, string)>
  {
    if idx < 0 then
      if -|Colors| <= idx then Ok((Colors[|Colors| + idx], LineStyles[0])) else Err(IndexOutOfRange)
    else
      var i := idx / |Colors|;
      if i > |LineStyles| then Err(AssertionFailed)
      else if i == |LineStyles| then Err(IndexOutOfRange)
      else Ok((Colors[idx % |Colors|], LineStyles[i]))
  }

  /** `Settings.line(idx)`: subtract the number of colours until the index is a
      colour position, counting the subtractions as the line-style index. */
  method Line(idx: int) returns (r: Result<(string, string)>)
    ensures r == LineOf(idx)
  {
    var i := 0;
    var k := idx;
    while |Colors| - 1 < k
      invariant 0 <= i
      invariant idx == i * |Colors| + k
      invariant i > 0 ==> 0 <= k
      decreases k
    {
      i := i + 1;
      k := k - |Colors|;
    }
    if !(i <= |LineStyles|) {
      return Err(AssertionFailed);
    }
    if k < -|Colors| || i >= |LineStyles| {
      return Err(IndexOutOfRange);
    }
    var color := if k < 0 then Colors[|Colors| + k] else Colors[k];
    return Ok((color, LineStyles[i]));
  }

  /** Only the indices -6..11 give a colour and a style; each non-negative one
      gives a distinct pair. */
  lemma LineRange(idx: int)
    ensures LineOf(idx).Ok? <==> -6 <= idx < 12
    ensures 0 <= idx < 12 ==> LineOf(idx) == Ok((Colors[idx % 6], LineStyles[idx / 6]))
  {
  }

  lemma LineInjective(a: int, b: int)
    requires 0 <= a < 12 && 0 <= b < 12 && a != b
    ensures LineOf(a) != LineOf(b)
  {
    assert a == (a / 6) * 6 + a % 6 && b == (b / 6) * 6 + b % 6;
  }
}
