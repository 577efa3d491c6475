/** The lookup behind `WorldBankIndicatorMapper` (lib/WorldBankData.py:47-227),
    for any list of (indicator name, indicator code) pairs: the constructor
    stores every pair upper-cased in a `DoubleDict`, and a lookup upper-cases
    its argument first. */
module WorldBankIndicators {
  import opened Wrappers
  import opened Text
  import opened DoubleDicts

  class WorldBankIndicatorMapper {
    const fnameMapper: DoubleDict

    /** `__init__`: `for name, ID in nameList: fnameMapper[name.upper()] = ID.upper()`,
        with the literal `nameList` passed in (`WorldBankIndicatorTable.NameList`). */
    constructor (nameList: seq<(string, string)>)
      ensures fnameMapper.entries == UpperTable(nameList)
      ensures fresh(fnameMapper)
    {
      var d := new DoubleDict();
      var i := 0;
      while i < |nameList|
        invariant 0 <= i <= |nameList|
        invariant d.entries == InsertAll(map[], UpperPairs(nameList)[..i])
      {
        var name := nameList[i].0;
        var id := nameList[i].1;
        assert UpperPairs(nameList)[..i + 1] == UpperPairs(nameList)[..i] + [(Upper(name), Upper(id))];
        InsertAllSnoc(map[], UpperPairs(nameList)[..i], (Upper(name), Upper(id)));
        d.Set(Upper(name), Upper(id));
        i := i + 1;
      }
      assert UpperPairs(nameList)[..i] == UpperPairs(nameList);
      fnameMapper := d;
    }

    /** `__call__`: the entry of the upper-cased indicator, or `False` (here
        `None`) after a message when there is none; it never raises. */
    function Call(indicator: string): (r: Option<string>)
      reads this, fnameMapper
      ensures r.Some? <==> Upper(indicator) in fnameMapper.entries
      ensures r.Some? ==> r.value == fnameMapper.entries[Upper(indicator)]
    {
      fnameMapper.Get(Upper(indicator))
    }
  }

  /** For a mapper filled from `nameList`: an indicator is found exactly when it
      upper-cases to a member of some pair, the answer does not depend on the
      case of the argument, and every answer is upper-case. */
  lemma CallShape(m: WorldBankIndicatorMapper, nameList: seq<(string, string)>, s: string)
    requires m.fnameMapper.entries == UpperTable(nameList)
    ensures m.Call(s).Some? <==>
      exists j :: 0 <= j < |nameList| && (Upper(nameList[j].0) == Upper(s) || Upper(nameList[j].1) == Upper(s))
    ensures m.Call(Upper(s)) == m.Call(s) && m.Call(Lower(s)) == m.Call(s)
    ensures m.Call(s).Some? ==> HasNoLowerCase(m.Call(s).value)
  {
    TableKeys(nameList, Upper(s));
    TableUpper(nameList);
    UpperIdempotent(s);
    UpperOfLower(s);
  }

  /** Pair `i` of `nameList` is found both ways, name to upper-cased code and
      code to upper-cased name, when no later pair repeats one of its members. */
  lemma CallBothWays(m: WorldBankIndicatorMapper, nameList: seq<(string, string)>, i: nat)
    requires m.fnameMapper.entries == UpperTable(nameList)
    requires i < |nameList|
    requires Avoids(nameList[i + 1..], Upper(nameList[i].0))
    requires Avoids(nameList[i + 1..], Upper(nameList[i].1))
    ensures m.Call(nameList[i].0) == Some(Upper(nameList[i].1))
    ensures m.Call(nameList[i].1) == Some(Upper(nameList[i].0))
  {
    PairBothWays(nameList, i);
  }

  /** An indicator that no pair member matches, ignoring case, gives `False`;
      so a name written with a stray `]` in the list is not found without it. */
  lemma CallUnknown(m: WorldBankIndicatorMapper, nameList: seq<(string, string)>, s: string)
    requires m.fnameMapper.entries == UpperTable(nameList)
    requires Avoids(nameList, Upper(s))
    ensures m.Call(s) == None
  {
    AvoidedMissing(nameList, Upper(s));
  }
}
