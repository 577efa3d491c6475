/** `countryCodeMapper` (lib/newspaper/countryCodeMapper.py): the dictionary the
    constructor builds from its literal, the exact and case-sensitive lookup,
    and the two key listings. */
module CountryCodes {
  import opened Wrappers
  import opened CountryBlocks
  import opened CountryTable

  /** A `countryCodeMapper` object: its dictionary `countryMap`, kept as the
      keys in the order the dictionary lists them and the entries. */
  datatype Mapper = Mapper(keys: seq<string>, countryMap: map<string, string>)

  /** What the constructor establishes and no method changes: the listed keys
      are the dictionary's keys, each once, and every value is a code that
      maps to itself. */
  predicate Valid(m: Mapper) {
    NoRepeats(m.keys) && (forall k | k in m.keys :: k in m.countryMap) &&
    (forall k | k in m.countryMap :: k in m.keys) && Canonical(m.countryMap)
  }

  /** The dictionary the literal of lines 29-661 builds. */
  function CountryMap(): map<string, string>
  {
    Extend(map[], Groups())
  }

  /** The order in which the dictionary lists its keys: first appearance in
      the literal. */
  function KeyOrder(): seq<string>
  {
    Distinct(ListedKeys(Groups()))
  }

  /** A mapper holding the dictionary any literal builds, with the keys in
      order of first appearance, satisfies the invariant. */
  lemma BuiltValid(gs: seq<Group>)
    ensures Valid(Mapper(Distinct(ListedKeys(gs)), Extend(map[], gs)))
  {
    BuiltKeyOrder(gs);
    ExtendCanonical(map[], gs);
  }

  /** `__init__()`: the mapper holding the dictionary of the literal. */
  function NewMapper(): (m: Mapper)
    ensures m.countryMap == CountryMap()
    ensures Valid(m)
  {
    BuiltValid(Groups());
    Mapper(KeyOrder(), CountryMap())
  }

  /** `__call__(s)`: the code stored under exactly `s`, or `False` (here `None`)
      after a message; an unknown key never raises. */
  function Lookup(m: Mapper, s: string): (r: Option<string>)
    ensures r.Some? <==> s in m.countryMap
    ensures r.Some? ==> r.value == m.countryMap[s]
  {
    if s in m.countryMap then Some(m.countryMap[s]) else None
  }

  /** Every result is a three-letter code that the table maps to itself, so
      looking up a result again gives the same result. */
  lemma LookupIdempotent(m: Mapper, s: string)
    requires Valid(m)
    ensures Lookup(m, s).Some? ==> |Lookup(m, s).value| == 3 && Lookup(m, Lookup(m, s).value) == Lookup(m, s)
  {
  }

  /** Lookup is exact and case-sensitive: every key starts with a capital letter,
      so a string that does not is not found. */
  lemma LookupCaseSensitive(m: Mapper, s: string)
    requires Valid(m)
    requires s == "" || !IsCapital(s[0])
    ensures Lookup(m, s) == None
  {
  }

  /** A three-character key is a code and maps to itself. */
  lemma ThreeCharacterKeys(m: Mapper, s: string)
    requires Valid(m)
    requires |s| == 3 && Lookup(m, s).Some?
    ensures Lookup(m, s) == Some(s)
  {
  }

  /** `countryNames()`: the keys longer than three characters, in dictionary
      order. */
  function CountryNames(m: Mapper): (names: seq<string>)
    ensures forall k :: k in names <==> k in m.keys && |k| > 3
    ensures NoRepeats(m.keys) ==> NoRepeats(names)
  {
    LongerThanThree(m.keys)
  }

  /** `countryCodes()`: the keys of exactly three characters, in dictionary
      order. */
  function CountryCodeList(m: Mapper): (codes: seq<string>)
    ensures forall k :: k in codes <==> k in m.keys && |k| == 3
    ensures NoRepeats(m.keys) ==> NoRepeats(codes)
  {
    ExactlyThree(m.keys)
  }

  /** Of a mapper the constructor built, `countryNames()` lists every key
      longer than three characters once and `countryCodes()` every
      three-character key once. */
  lemma ListingsComplete(m: Mapper, k: string)
    requires Valid(m)
    ensures k in CountryNames(m) <==> k in m.countryMap && |k| > 3
    ensures k in CountryCodeList(m) <==> k in m.countryMap && |k| == 3
    ensures NoRepeats(CountryNames(m)) && NoRepeats(CountryCodeList(m))
  {
  }

  /** Every listed code maps to itself. */
  lemma ListedCodesMapToThemselves(m: Mapper, k: string)
    requires Valid(m)
    requires k in CountryCodeList(m)
    ensures Lookup(m, k) == Some(k)
  {
  }

  /** No key is in both listings. */
  lemma ListingsDisjoint(m: Mapper, k: string)
    ensures !(k in CountryNames(m) && k in CountryCodeList(m))
  {
  }

  /** "Dominica" is written under DMA (line 183) and again under DOM (line 191);
      the later line wins. */
  lemma DominicaMapsToDOM()
    ensures "Dominica" in CountryMap() && CountryMap()["Dominica"] == "DOM"
  {
    DominicaAbsentAfterD();
    DominicaLastWrittenInD();
    ExtendMiddle(map[], GroupsAtoC(), GroupsD(), GroupsEtoZ(), 4, "Dominica");
  }

  lemma DMAFound()
    ensures "DMA" in CountryMap() && CountryMap()["DMA"] == "DMA"
  {
    DMAAbsentAfterD();
    DMALastWrittenInD();
    ExtendMiddle(map[], GroupsAtoC(), GroupsD(), GroupsEtoZ(), 2, "DMA");
  }

  /** Only the code itself maps to "DMA": its one synonym is taken over by DOM. */
  lemma OnlyDMAMapsToDMA(k: string)
    ensures k in CountryMap() && CountryMap()[k] == "DMA" <==> k == "DMA"
  {
    if k == "DMA" {
      DMAFound();
    }
    if k in CountryMap() && CountryMap()[k] == "DMA" {
      NoDCodeBeforeD();
      NoDCodeAfterD();
      ExtendMiddleSource(map[], GroupsAtoC(), GroupsD(), GroupsEtoZ(), k);
      var i :| LastWriter(GroupsD(), i, k) && GroupsD()[i].code == "DMA";
      LastWrittenByDMA(i, k);
    }
  }

  /** A key shorter than three characters, such as the synonym "US" of
      line 632, is listed neither as a name nor as a code. */
  lemma ShortKeysUnlisted(m: Mapper, k: string)
    requires |k| < 3
    ensures k !in CountryNames(m) && k !in CountryCodeList(m)
  {
  }

  /** The two-letter synonym "US" (line 632) resolves to USA. */
  lemma USResolves()
    ensures "US" in CountryMap() && CountryMap()["US"] == "USA"
  {
    USAbsentAfterU();
    USLastWrittenInU();
    ExtendMiddleAfter(map[], GroupsAtoC() + GroupsD(), GroupsEtoT(), GroupsU(), GroupsVtoZ(), 3, "US");
  }
}
