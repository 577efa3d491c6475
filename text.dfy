/** The handful of Python `str` operations the modelled code relies on, restricted
    to ASCII: slicing with Python's clamping rules, `strip`, `upper`/`lower`,
    `split`, `isdigit` and `int`. */
module Text {
  import opened Wrappers

  // ----- characters -----

  predicate IsDigit(c: char) { '0' <= c <= '9' }

  /** The whitespace `str.strip()` removes (its ASCII part). */
  predicate IsSpace(c: char) {
    c == ' ' || c == '\t' || c == '\n' || c == '\r' || c == '\U{0B}' || c == '\U{0C}'
  }

  function UpperChar(c: char): (u: char)
    ensures 'a' <= c <= 'z' ==> 'A' <= u <= 'Z' && u as int == c as int - 32
    ensures !('a' <= c <= 'z') ==> u == c
  {
    if 'a' <= c <= 'z' then (c as int - 32) as char else c
  }

  function LowerChar(c: char): (l: char)
    ensures 'A' <= c <= 'Z' ==> 'a' <= l <= 'z' && l as int == c as int + 32
    ensures !('A' <= c <= 'Z') ==> l == c
  {
    if 'A' <= c <= 'Z' then (c as int + 32) as char else c
  }

  // ----- case mapping -----

  /** `s.upper()` on ASCII letters; every other character is kept. */
  function Upper(s: string): (u: string)
    ensures |u| == |s|
    ensures forall i :: 0 <= i < |s| ==> u[i] == UpperChar(s[i])
  {
    seq(|s|, i requires 0 <= i < |s| => UpperChar(s[i]))
  }

  /** `s.lower()` on ASCII letters (the NYT client lowercases UTF-8 bytes, which
      touches exactly the ASCII letters). */
  function Lower(s: string): (l: string)
    ensures |l| == |s|
    ensures forall i :: 0 <= i < |s| ==> l[i] == LowerChar(s[i])
  {
    seq(|s|, i requires 0 <= i < |s| => LowerChar(s[i]))
  }

  predicate HasNoLowerCase(s: string) {
    forall i :: 0 <= i < |s| ==> !('a' <= s[i] <= 'z')
  }

  /** Upper-casing is idempotent and leaves nothing lower-case behind. */
  lemma UpperIdempotent(s: string)
    ensures HasNoLowerCase(Upper(s))
    ensures Upper(Upper(s)) == Upper(s)
  {
  }

  /** Lower-casing first makes no difference to upper-casing. */
  lemma UpperOfLower(s: string)
    ensures Upper(Lower(s)) == Upper(s)
  {
    assert forall i :: 0 <= i < |s| ==> Upper(Lower(s))[i] == Upper(s)[i];
  }

  /** Strings differing in length, or at a position where the upper-cased character
      of `s` differs from `k`, do not upper-case to `k`. */
  lemma UpperDiffers(s: string, k: string, i: nat)
    requires |s| != |k| || (i < |s| == |k| && UpperChar(s[i]) != k[i])
    ensures Upper(s) != k
  {
    if |s| == |k| {
      assert Upper(s)[i] != k[i];
    }
  }

  // ----- slicing -----

  /** Python's `s[i:j]` for non-negative bounds: both ends are clamped to the
      length, and an empty slice results when the start is not before the end. */
  function Slice(s: string, i: nat, j: nat): (r: string)
    ensures |r| == if i < j && i < |s| then (if j < |s| then j else |s|) - i else 0
    ensures j <= i ==> r == ""
    ensures i < j <= |s| ==> r == s[i..j]
  {
    var lo := if i < |s| then i else |s|;
    var hi := if j < |s| then j else |s|;
    if lo < hi then s[lo..hi] else ""
  }

  /** Python's `s[-n:]`: the last `n` characters, or all of `s` when it is shorter. */
  function Last(s: string, n: nat): (r: string)
    ensures |r| == if n < |s| then n else |s|
    ensures s == s[..|s| - |r|] + r
  {
    if n < |s| then s[|s| - n..] else s
  }

  // ----- strip -----

  function StripLeft(s: string): (r: string)
    ensures |r| <= |s|
  {
    if s != "" && IsSpace(s[0]) then StripLeft(s[1..]) else s
  }

  function StripRight(s: string): (r: string)
    ensures |r| <= |s|
  {
    if s != "" && IsSpace(s[|s| - 1]) then StripRight(s[..|s| - 1]) else s
  }

  /** `s.strip()`: whitespace removed from both ends. */
  function Strip(s: string): (r: string)
    ensures |r| <= |s|
  {
    StripRight(StripLeft(s))
  }

  /** `StripLeft` removes a leading run of whitespace and keeps the rest. */
  lemma {:induction false} StripLeftShape(s: string)
    ensures var r := StripLeft(s);
      r == s[|s| - |r|..] && (r != "" ==> !IsSpace(r[0])) &&
      forall i :: 0 <= i < |s| - |r| ==> IsSpace(s[i])
  {
    if s != "" && IsSpace(s[0]) {
      StripLeftShape(s[1..]);
    }
  }

  /** `StripRight` removes a trailing run of whitespace and keeps the rest. */
  lemma {:induction false} StripRightShape(s: string)
    ensures var r := StripRight(s);
      r == s[..|r|] && (r != "" ==> !IsSpace(r[|r| - 1])) &&
      forall i :: |r| <= i < |s| ==> IsSpace(s[i])
  {
    if s != "" && IsSpace(s[|s| - 1]) {
      StripRightShape(s[..|s| - 1]);
    }
  }

  /** The stripped string neither starts nor ends with whitespace, and is the
      part of the original left after cutting whitespace from both ends. */
  lemma StripShape(s: string)
    ensures var r := Strip(s); var i := |s| - |StripLeft(s)|;
      (r != "" ==> !IsSpace(r[0]) && !IsSpace(r[|r| - 1])) &&
      r == s[i..i + |r|] &&
      (forall j :: 0 <= j < i ==> IsSpace(s[j])) &&
      (forall j :: i + |r| <= j < |s| ==> IsSpace(s[j]))
  {
    StripLeftShape(s);
    StripRightShape(StripLeft(s));
    TrimmedBothEnds(s, StripLeft(s), Strip(s));
  }

  /** Cutting a leading run of whitespace from `s` to get `l`, then a trailing
      run from `l` to get `r`, leaves `r` as the middle of `s`. */
  lemma TrimmedBothEnds(s: string, l: string, r: string)
    requires |r| <= |l| <= |s|
    requires l == s[|s| - |l|..] && (l != "" ==> !IsSpace(l[0]))
    requires forall j :: 0 <= j < |s| - |l| ==> IsSpace(s[j])
    requires r == l[..|r|] && (r != "" ==> !IsSpace(r[|r| - 1]))
    requires forall j :: |r| <= j < |l| ==> IsSpace(l[j])
    ensures var i := |s| - |l|;
      (r != "" ==> !IsSpace(r[0]) && !IsSpace(r[|r| - 1])) &&
      r == s[i..i + |r|] &&
      (forall j :: 0 <= j < i ==> IsSpace(s[j])) &&
      (forall j :: i + |r| <= j < |s| ==> IsSpace(s[j]))
  {
    var i := |s| - |l|;
    assert s[i..i + |r|] == l[..|r|];
    forall j | i + |r| <= j < |s| ensures IsSpace(s[j]) {
      assert s[j] == l[j - i];
    }
    if r != "" {
      assert r[0] == l[0];
    }
  }

  /** A string with no whitespace at either end is its own strip. */
  lemma StripTrimmed(s: string)
    requires s != "" ==> !IsSpace(s[0]) && !IsSpace(s[|s| - 1])
    ensures Strip(s) == s
  {
  }

  // ----- split -----

  function IndexOf(s: string, c: char): (k: nat)
    requires c in s
    ensures k < |s| && s[k] == c && c !in s[..k]
  {
    if s[0] == c then 0 else 1 + IndexOf(s[1..], c)
  }

  /** `s.split(sep)` for a one-character separator: the pieces between the
      occurrences of `sep`, so there is always at least one piece. */
  function Split(s: string, sep: char): (parts: seq<string>)
    ensures |parts| >= 1
    ensures forall i :: 0 <= i < |parts| ==> sep !in parts[i]
    decreases |s|
  {
    if sep in s then
      var k := IndexOf(s, sep);
      [s[..k]] + Split(s[k + 1..], sep)
    else
      [s]
  }

  /** `sep.join(parts)`. */
  function Join(parts: seq<string>, sep: char): string
    requires |parts| >= 1
  {
    if |parts| == 1 then parts[0] else parts[0] + [sep] + Join(parts[1..], sep)
  }

  /** Splitting then joining gives the original string back. */
  lemma {:induction false} JoinSplit(s: string, sep: char)
    ensures Join(Split(s, sep), sep) == s
    decreases |s|
  {
    if sep in s {
      var k := IndexOf(s, sep);
      var head, rest := s[..k], Split(s[k + 1..], sep);
      assert Split(s, sep) == [head] + rest;
      JoinCons(head, rest, sep);
      JoinSplit(s[k + 1..], sep);
      assert s == head + [sep] + s[k + 1..];
    }
  }

  /** Joining a first piece onto more pieces puts one separator between them. */
  lemma JoinCons(head: string, rest: seq<string>, sep: char)
    requires |rest| >= 1
    ensures Join([head] + rest, sep) == head + [sep] + Join(rest, sep)
  {
    assert ([head] + rest)[1..] == rest;
  }

  /** The first separator of `a + [sep] + b` is the one after `a` when `a` has none. */
  lemma {:induction false} IndexAfter(a: string, sep: char, b: string)
    requires sep !in a
    ensures sep in a + [sep] + b && IndexOf(a + [sep] + b, sep) == |a|
  {
    var s := a + [sep] + b;
    assert s[|a|] == sep;
    if a != [] {
      assert s[1..] == a[1..] + [sep] + b;
      IndexAfter(a[1..], sep, b);
    }
  }

  /** Joining pieces that do not contain the separator, then splitting, gives the
      pieces back. */
  lemma {:induction false} SplitJoin(parts: seq<string>, sep: char)
    requires |parts| >= 1
    requires forall i :: 0 <= i < |parts| ==> sep !in parts[i]
    ensures Split(Join(parts, sep), sep) == parts
    decreases |parts|
  {
    if |parts| > 1 {
      var rest := Join(parts[1..], sep);
      var s := parts[0] + [sep] + rest;
      assert Join(parts, sep) == s;
      IndexAfter(parts[0], sep, rest);
      assert s[..|parts[0]|] == parts[0];
      assert s[|parts[0]| + 1..] == rest;
      SplitJoin(parts[1..], sep);
      assert parts == [parts[0]] + parts[1..];
    }
  }

  /** `s.split(sep)[0]`: everything before the first `sep`, or all of `s`. */
  function BeforeFirst(s: string, sep: char): (r: string)
    ensures r == Split(s, sep)[0]
    ensures sep !in r && s[..|r|] == r
    ensures |r| < |s| ==> s[|r|] == sep
  {
    if sep in s then s[..IndexOf(s, sep)] else s
  }

  // ----- numbers -----

  /** `s.isdigit()`: non-empty and made of decimal digits only. */
  predicate IsDigits(s: string) {
    s != "" && forall i :: 0 <= i < |s| ==> IsDigit(s[i])
  }

  /** The decimal value of a string of digits. */
  function DigitsValue(s: string): (n: nat)
    requires forall i :: 0 <= i < |s| ==> IsDigit(s[i])
  {
    if s == "" then 0 else 10 * DigitsValue(s[..|s| - 1]) + DigitValue(s[|s| - 1])
  }

  function DigitValue(c: char): (d: nat)
    requires IsDigit(c)
    ensures d <= 9
  {
    c as int - '0' as int
  }

  /** `int(s)` on an already stripped string: an optional sign then decimal digits;
      anything else is a ValueError, modelled as `None`. */
  function ParseInt(s: string): (r: Option<int>)
    ensures IsDigits(s) ==> r == Some(DigitsValue(s))
    ensures s == "" ==> r == None
    ensures r.Some? && !IsDigits(s) ==> s[0] == '-' || s[0] == '+'
  {
    if s != "" && (s[0] == '-' || s[0] == '+') then
      if IsDigits(s[1..]) then
        Some(if s[0] == '-' then 0 - DigitsValue(s[1..]) else DigitsValue(s[1..]) as int)
      else None
    else if IsDigits(s) then Some(DigitsValue(s))
    else None
  }
}
