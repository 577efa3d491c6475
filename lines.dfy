/** Reading a file line by line where every line must parse: the first line
    that does not stops the loop with an exception. */
module LineParsing {
  import opened Wrappers

  /** The parse of every line in order, or `None` when some line fails. */
  function ParseAll<T>(ls: seq<string>, parse: string -> Option<T>): (r: Option<seq<T>>)
    ensures r.Some? ==> |r.value| == |ls|
  {
    if ls == [] then Some([])
    else
      match ParseAll(ls[..|ls| - 1], parse)
      case None => None
      case Some(ps) =>
        match parse(ls[|ls| - 1])
        case None => None
        case Some(p) => Some(ps + [p])
  }

  /** One more line: the loop's step. */
  lemma ParseAllSnoc<T>(ls: seq<string>, parse: string -> Option<T>, i: int)
    requires 0 <= i < |ls|
    ensures ParseAll(ls[..i + 1], parse) ==
      match ParseAll(ls[..i], parse)
      case None => None
      case Some(ps) =>
        match parse(ls[i])
        case None => None
        case Some(p) => Some(ps + [p])
  {
    assert ls[..i + 1][..i] == ls[..i];
  }

  /** The parse fails exactly when some line fails, and otherwise holds every
      line's parse at the line's position. */
  lemma {:induction false} ParseAllShape<T>(ls: seq<string>, parse: string -> Option<T>)
    ensures ParseAll(ls, parse).None? <==> exists k :: 0 <= k < |ls| && parse(ls[k]).None?
    ensures ParseAll(ls, parse).Some? ==>
      forall k :: 0 <= k < |ls| ==> parse(ls[k]) == Some(ParseAll(ls, parse).value[k])
  {
    if ls != [] {
      var init := ls[..|ls| - 1];
      ParseAllShape(init, parse);
      if exists k :: 0 <= k < |init| && parse(init[k]).None? {
        var k :| 0 <= k < |init| && parse(init[k]).None?;
        assert ls[k] == init[k];
      }
      if exists k :: 0 <= k < |ls| && parse(ls[k]).None? {
        var k :| 0 <= k < |ls| && parse(ls[k]).None?;
        if k < |init| {
          assert init[k] == ls[k];
        }
      }
      if ParseAll(ls, parse).Some? {
        var ps := ParseAll(init, parse).value;
        forall k | 0 <= k < |ls| ensures parse(ls[k]) == Some(ParseAll(ls, parse).value[k]) {
          if k < |init| {
            assert init[k] == ls[k];
            assert ParseAll(ls, parse).value[k] == ps[k];
          }
        }
      }
    }
  }

  /** A failing prefix makes the whole file fail. */
  lemma ParseAllPrefixFails<T>(ls: seq<string>, parse: string -> Option<T>, i: int)
    requires 0 <= i <= |ls|
    requires ParseAll(ls[..i], parse).None?
    ensures ParseAll(ls, parse).None?
  {
    ParseAllShape(ls[..i], parse);
    var k :| 0 <= k < i && parse(ls[..i][k]).None?;
    assert ls[k] == ls[..i][k];
    ParseAllShape(ls, parse);
  }
}
