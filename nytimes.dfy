// The query side of the New York Times article search client
// (lib/newspaper/nytimesarticles.py, `articleAPI`): parameter encoding, the
// query string and the request URL. The HTTP request itself is not modelled.

module NytArticles {
  import opened Wrappers
  import opened Text

  const ApiRoot := "http://api.nytimes.com/svc/search/v2/articlesearch."

  /** A search parameter value: a string or a bool. */
  datatype Value = Str(s: string) | Flag(b: bool)

  /** Keyword arguments, in the order they were passed. */
  type Params = seq<(string, Value)>

  /** `v.encode('utf8').lower()` on a string value: ASCII capitals become
      small letters, every other character is kept; bools are untouched. */
  function Lowered(v: Value): (w: Value)
    ensures v.Flag? ==> w == v
    ensures v.Str? ==> w.Str? && |w.s| == |v.s| && LowerCase(w.s)
  {
    match v
    case Str(s) => Str(Lower(s))
    case Flag(_) => v
  }

  /** `str(v).lower()` on a bool value; strings are untouched. */
  function BoolText(v: Value): (w: Value)
    ensures w.Str?
    ensures v.Str? ==> w == v
    ensures v.Flag? ==> (w.s == "true" <==> v.b) && (w.s == "false" <==> !v.b)
  {
    match v
    case Str(_) => v
    case Flag(b) => Str(if b then "true" else "false")
  }

  /** No ASCII capital letter. */
  predicate LowerCase(s: string) {
    forall i :: 0 <= i < |s| ==> !('A' <= s[i] <= 'Z')
  }

  /** A value as `'%s'` prints it. */
  function Rendered(v: Value): string {
    match v
    case Str(s) => s
    case Flag(b) => if b then "True" else "False"
  }

  /** The `k=v` piece of one parameter. */
  function Piece(p: (string, Value)): string {
    p.0 + "=" + Rendered(p.1)
  }

  /** Each text followed by `&`, in order. */
  function Terminated(xs: seq<string>): string {
    if xs == [] then "" else xs[0] + "&" + Terminated(xs[1..])
  }

  /** The query string: `k=v&` for each parameter, in order. */
  function Query(ps: Params): string {
    Terminated(Pieces(ps))
  }

  /** Both encodings applied to every value, keys unchanged. */
  function Encoded(ps: Params): (es: Params)
    ensures |es| == |ps|
  {
    seq(|ps|, i requires 0 <= i < |ps| => (ps[i].0, BoolText(Lowered(ps[i].1))))
  }

  /** After encoding, every value is a string without ASCII capitals, the
      keys are those passed, and a bool is the word "true" or "false". */
  lemma EncodedValues(ps: Params)
    ensures forall i :: 0 <= i < |ps| ==>
      var e := Encoded(ps)[i];
      e.0 == ps[i].0 && e.1.Str? && LowerCase(e.1.s) &&
      (ps[i].1.Flag? ==> e.1.s == if ps[i].1.b then "true" else "false")
  {
  }

  /** Encoding twice is encoding once. */
  lemma EncodedIdempotent(ps: Params)
    ensures Encoded(Encoded(ps)) == Encoded(ps)
  {
    forall i | 0 <= i < |ps|
      ensures Encoded(Encoded(ps))[i] == Encoded(ps)[i]
    {
      var s := Encoded(ps)[i].1.s;
      assert Lower(s) == s;
    }
  }

  lemma {:induction false} TerminatedSnoc(xs: seq<string>, x: string)
    ensures Terminated(xs + [x]) == Terminated(xs) + x + "&"
    decreases |xs|
  {
    var last := x + "&";
    if xs == [] {
      assert xs + [x] == [x];
      assert Terminated([x]) == last + "";
      assert Terminated(xs) + last == last;
    } else {
      var head, tail := xs[0] + "&", Terminated(xs[1..]);
      assert (xs + [x])[1..] == xs[1..] + [x];
      TerminatedSnoc(xs[1..], x);
      assert Terminated(xs + [x]) == head + (tail + last);
      AppendAssoc(head, tail, last);
    }
  }

  lemma AppendAssoc(a: string, b: string, c: string)
    ensures a + (b + c) == (a + b) + c
  {
  }

  /** Appending a parameter appends its piece. */
  lemma QuerySnoc(ps: Params, p: (string, Value))
    ensures Query(ps + [p]) == Query(ps) + Piece(p) + "&"
  {
    assert Pieces(ps + [p]) == Pieces(ps) + [Piece(p)];
    TerminatedSnoc(Pieces(ps), Piece(p));
  }

  /** The pieces of the parameters. */
  function Pieces(ps: Params): (xs: seq<string>)
    ensures |xs| == |ps| && forall i :: 0 <= i < |ps| ==> xs[i] == Piece(ps[i])
  {
    seq(|ps|, i requires 0 <= i < |ps| => Piece(ps[i]))
  }

  lemma {:induction false} TerminatedJoin(xs: seq<string>)
    ensures Terminated(xs) == Join(xs + [""], '&')
    decreases |xs|
  {
    if xs != [] {
      TerminatedJoin(xs[1..]);
      assert (xs + [""])[1..] == xs[1..] + [""];
    }
  }

  /** The query string is the pieces joined by `&` with an empty last part. */
  lemma QueryJoin(ps: Params)
    ensures Query(ps) == Join(Pieces(ps) + [""], '&')
  {
    TerminatedJoin(Pieces(ps));
  }

  /** When no key or value holds an `&`, splitting the query string at `&`
      gives back each `k=v` piece, in order, followed by an empty part. */
  lemma QuerySplits(ps: Params)
    requires forall i :: 0 <= i < |ps| ==> '&' !in Piece(ps[i])
    ensures Split(Query(ps), '&') == Pieces(ps) + [""]
  {
    QueryJoin(ps);
    var pieces := Pieces(ps);
    var parts := pieces + [""];
    forall i | 0 <= i < |parts|
      ensures '&' !in parts[i]
    {
      if i < |pieces| {
        assert parts[i] == Piece(ps[i]);
      }
    }
    SplitJoin(parts, '&');
  }

  /** `articleAPI`: the developer key and the response format. */
  class ArticleApi {
    var key: string
    var responseFormat: string

    constructor(key: string)
      ensures this.key == key && responseFormat == "json"
    {
      this.key := key;
      responseFormat := "json";
    }

    /** `articleAPI(key)`: without a key the constructor raises
        NoAPIKeyException; with one it stores it and the format "json". */
    static method Create(key: Option<string>) returns (r: Result<ArticleApi>)
      ensures r.Err? <==> key.None?
      ensures r.Err? ==> r.failure == NoApiKey
      ensures r.Ok? ==> fresh(r.value) && r.value.key == key.value && r.value.responseFormat == "json"
    {
      if key.None? {
        return Err(NoApiKey);
      }
      var api := new ArticleApi(key.value);
      r := Ok(api);
    }

    /** `_utf8_encode`: each string value lowercased in place. */
    method Utf8Encode(d: Params) returns (e: Params)
      ensures |e| == |d| && forall i :: 0 <= i < |d| ==> e[i] == (d[i].0, Lowered(d[i].1))
    {
      e := d;
      var i := 0;
      while i < |e|
        invariant 0 <= i <= |e| == |d|
        invariant forall j :: 0 <= j < i ==> e[j] == (d[j].0, Lowered(d[j].1))
        invariant forall j :: i <= j < |e| ==> e[j] == d[j]
      {
        e := e[i := (e[i].0, Lowered(e[i].1))];
        i := i + 1;
      }
    }

    /** `_bool_encode`: each bool value replaced by its lowercased name. */
    method BoolEncode(d: Params) returns (e: Params)
      ensures |e| == |d| && forall i :: 0 <= i < |d| ==> e[i] == (d[i].0, BoolText(d[i].1))
    {
      e := d;
      var i := 0;
      while i < |e|
        invariant 0 <= i <= |e| == |d|
        invariant forall j :: 0 <= j < i ==> e[j] == (d[j].0, BoolText(d[j].1))
        invariant forall j :: i <= j < |e| ==> e[j] == d[j]
      {
        if e[i].1.Flag? {
          e := e[i := (e[i].0, BoolText(e[i].1))];
        }
        i := i + 1;
      }
    }

    /** `_options` for string and bool values: the encoded parameters as
        `k=v&` pieces, in order; no parameters give "". */
    method Options(params: Params) returns (values: string)
      ensures values == Query(Encoded(params))
    {
      var lowered := Utf8Encode(params);
      var kwargs := BoolEncode(lowered);
      assert kwargs == Encoded(params);
      values := "";
      var i := 0;
      while i < |kwargs|
        invariant 0 <= i <= |kwargs|
        invariant values == Query(kwargs[..i])
      {
        QuerySnoc(kwargs[..i], kwargs[i]);
        assert kwargs[..i + 1] == kwargs[..i] + [kwargs[i]];
        values := values + Piece(kwargs[i]) + "&";
        i := i + 1;
      }
      assert kwargs[..|kwargs|] == kwargs;
    }

    /** The URL `search` requests: the root, the format (the stored one when
        none is passed), the query string and the key (the stored one when
        none is passed). */
    method SearchUrl(responseFormat: Option<string>, key: Option<string>, params: Params) returns (url: string)
      ensures var f := if responseFormat.None? then this.responseFormat else responseFormat.value;
        var k := if key.None? then this.key else key.value;
        url == ApiRoot + f + "?" + Query(Encoded(params)) + "api-key=" + k
    {
      var f := if responseFormat.None? then this.responseFormat else responseFormat.value;
      var k := if key.None? then this.key else key.value;
      var options := Options(params);
      url := ApiRoot + f + "?" + options + "api-key=" + k;
    }
  }
}
