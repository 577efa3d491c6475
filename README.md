# delveData core, modelled in Dafny

delveData joins migration, economic, climate and newspaper data into one
table per (Year, Country). This project models the deterministic rules
under that pipeline and proves properties about them:

- the identifier tables: the country-name table `countryCodeMapper`,
  the symmetric `DoubleDict`, the World Bank indicator mapper, the 16
  category tables of `dataClassMapper`, and the three climate lookup
  tables (`LatLon2Country`, `WeatherStationMapper`, `CountryMapper2to3`);
- the climate severity engine:
  - the fixed-width NOAA GHCN-Daily line parser;
  - the record filter of a station file;
  - `getStatistics`, which flags a month whose mean leaves the band of
    mean ± 1.54 standard deviations of all earlier years;
  - the collapse, which averages flags over stations, rounds half to
    even, sums months to a 0..12 count and cuts at 1980;
- the newspaper mention counter `Country`, and `CountryContainer` with
  its stable sort by year;
- `splitNA` and `Settings.line`;
- the reshaping rules of the loaders:
  - World Bank: year columns, zip member choice, `indicator()`;
  - UNHCR: year cut, `*` redaction, the "Various/Unknown" bucket, group
    sum;
  - OECD: flag filter, selection, pivot with mean;
  - newspaper: source name, melt, left merge, extraction;
  - the `DataContainer` sum/mean policy and its column order;
- the query-string and URL builder of the New York Times article search
  client.

Modelling choices:

- A missing pandas value is `None` of an `Option`.
- A Python exception is the `Err` of a `Result`, with a tag naming its
  kind (AssertionError, IndexError, KeyError, ValueError, an unbound
  local, the missing-API-key exception).
- Means and variances are exact reals.
- The country mapper that the loaders call (`CountryCodeMapper.convert`)
  is a parameter of type `string -> Option<string>`.
- Objects that the source updates in place are classes:
  - `DoubleDict`, `Country`, `CountryContainer`;
  - `WeatherStation` and the three climate lookup tables;
  - `WorldBankIndicatorMapper` and `dataClassMapper`;
  - `NewspaperData` and `articleAPI`.
- Loops that build results are methods whose contracts tie them to a
  specification function. Examples are `getStatistics`, `_load`,
  `_options`, `Settings.line`, the loop of `indicator()` and the
  encoders.

The line parser keeps the slices of lib/climateData.py as written:

- day 4's quality flag is read from column 53, which is the first column
  of day 5's value;
- the flag slices of days 6 and 7 (`[69:68]`, `[77:76]`) are empty, so
  those days are never filtered.

Where a literal table is too large for the verifier to reason about as a
whole, its facts are proved by generic lemmas about how the table is
built:

- the 631-entry country dictionary is handled block by block;
- the 156 World Bank pairs and the 16 category tables are passed to
  generic constructors.

## Model

| member | source | states |
|---|---|---|
| CountryCodes.BuiltValid | lib/newspaper/countryCodeMapper.py:29-661 | the dictionary any block literal builds, listed in order of first appearance, satisfies the mapper invariant: each key listed once, every value a key that maps to itself |
| CountryCodes.NewMapper | lib/newspaper/countryCodeMapper.py:29-661 | `__init__()` holds the dictionary of the literal and satisfies the invariant |
| CountryCodes.Lookup | lib/newspaper/countryCodeMapper.py:664-672 | found exactly when the string is literally a key, then that key's code; an unknown key gives `None` (the source's `False`) and never fails |
| CountryCodes.LookupIdempotent | lib/newspaper/countryCodeMapper.py:664-672 | every result is a three-letter code, and looking it up again gives the same result |
| CountryCodes.LookupCaseSensitive | lib/newspaper/countryCodeMapper.py:668-672 | a string that does not start with a capital letter is not found |
| CountryCodes.ThreeCharacterKeys | lib/newspaper/countryCodeMapper.py:664-672 | a three-character key is a code that maps to itself |
| CountryCodes.CountryNames | lib/newspaper/countryCodeMapper.py:674-676 | `countryNames()` lists exactly the keys longer than three characters, without repeats |
| CountryCodes.CountryCodeList | lib/newspaper/countryCodeMapper.py:678-680 | `countryCodes()` lists exactly the three-character keys, without repeats |
| CountryCodes.ListingsComplete | lib/newspaper/countryCodeMapper.py:674-680 | of a constructed mapper, each key longer than three characters is named once and each three-character key is listed once as a code |
| CountryCodes.ListedCodesMapToThemselves | lib/newspaper/countryCodeMapper.py:678-680 | every code `countryCodes()` lists maps to itself |
| CountryCodes.ListingsDisjoint | lib/newspaper/countryCodeMapper.py:674-680 | no key is in both listings |
| CountryCodes.DominicaMapsToDOM | lib/newspaper/countryCodeMapper.py:183-191 | "Dominica" is written under DMA and again under DOM, and the later entry wins: it maps to "DOM" |
| CountryCodes.DMAFound | lib/newspaper/countryCodeMapper.py:183 | "DMA" still maps to itself |
| CountryCodes.OnlyDMAMapsToDMA | lib/newspaper/countryCodeMapper.py:183-191 | only "DMA" itself maps to "DMA" |
| CountryCodes.ShortKeysUnlisted | lib/newspaper/countryCodeMapper.py:632 | a key shorter than three characters, such as the synonym "US", is in neither `countryNames()` nor `countryCodes()` |
| CountryCodes.USResolves | lib/newspaper/countryCodeMapper.py:632 | "US" resolves to "USA" |
| CountryBlocks.BuiltEntry | lib/newspaper/countryCodeMapper.py:29-661 | every key of a built dictionary starts with a capital letter and maps to a three-letter code that maps to itself; a three-character key maps to itself |
| CountryBlocks.BuiltKeyOrder | lib/newspaper/countryCodeMapper.py:29-661 | the key order lists each key of the built dictionary exactly once |
| CountryBlocks.AddGroup | lib/newspaper/countryCodeMapper.py:29-661 | the lines of one block map each name they write to the block's code and leave every other key as it was |
| CountryBlocks.AddGroupCanonical | lib/newspaper/countryCodeMapper.py:29-661 | adding a block keeps every value a self-mapped key |
| CountryBlocks.ExtendCanonical | lib/newspaper/countryCodeMapper.py:29-661 | a run of blocks keeps every value a self-mapped key |
| CountryBlocks.ExtendConcat | lib/newspaper/countryCodeMapper.py:29-661 | a literal in two parts builds the second part on top of the first |
| CountryBlocks.ExtendUntouched | lib/newspaper/countryCodeMapper.py:29-661 | blocks that do not write a key leave its entry as it was |
| CountryBlocks.ExtendLast | lib/newspaper/countryCodeMapper.py:29-661 | a key maps to the code of the last block that writes it (later dictionary entries win) |
| CountryBlocks.LastWriterExists | lib/newspaper/countryCodeMapper.py:29-661 | a key that some block writes has a last writer |
| CountryBlocks.ExtendSource | lib/newspaper/countryCodeMapper.py:29-661 | every added key maps to the code of its last writer |
| CountryBlocks.ExtendMiddle | lib/newspaper/countryCodeMapper.py:29-661 | a key last written in a middle part of the literal maps to that block's code |
| CountryBlocks.ExtendMiddleAfter | lib/newspaper/countryCodeMapper.py:29-661 | the same, behind a further prefix |
| CountryBlocks.ExtendMiddleSource | lib/newspaper/countryCodeMapper.py:29-661 | a key mapped to a code used only in the middle part was last written there |
| CountryBlocks.ThreeCharacterKeyIsCode | lib/newspaper/countryCodeMapper.py:29-661 | synonyms are never three characters long, so a three-character key is written only as a code |
| CountryBlocks.ExtendKeys | lib/newspaper/countryCodeMapper.py:29-661 | the keys are exactly those some block writes |
| CountryBlocks.ListedKeysMention | lib/newspaper/countryCodeMapper.py:29-661 | the listed keys are exactly those some block writes |
| CountryBlocks.Distinct | lib/newspaper/countryCodeMapper.py:674-680 | the dictionary's key order: each key once, in order of first appearance |
| CountryBlocks.LongerThanThree | lib/newspaper/countryCodeMapper.py:676 | the comprehension `len(key) > 3` keeps exactly those keys, without repeats |
| CountryBlocks.ExactlyThree | lib/newspaper/countryCodeMapper.py:680 | the comprehension `len(key) == 3` keeps exactly those keys, without repeats |
| DoubleDicts.Insert | lib/utils.py:113-115 | after `d[k] = v`, `k` maps to `v` and `v` maps to `k`, and every other entry is unchanged |
| DoubleDicts.ReassignKeepsReverse | lib/utils.py:113-115 | assigning `k` again leaves the old reverse entry `v -> k` in place |
| DoubleDicts.InsertAllKeys | lib/WorldBankData.py:213-214 | after the fill loop, the keys are the old ones plus both members of every pair |
| DoubleDicts.InsertAllUntouched | lib/WorldBankData.py:213-214 | an entry that no pair mentions is left as it was |
| DoubleDicts.InsertAllForward | lib/WorldBankData.py:213-214 | a pair's first member maps to its second when no later pair mentions it |
| DoubleDicts.InsertAllBackward | lib/WorldBankData.py:213-214 | a pair's second member maps back to its first when no later pair mentions it |
| DoubleDicts.InsertAllSnoc | lib/WorldBankData.py:213-214 | one more pair is one more symmetric insert |
| DoubleDicts.UpperPairs | lib/WorldBankData.py:213-214 | each pair with both members upper-cased |
| DoubleDicts.InsertAllUpper | lib/WorldBankData.py:213-214 | filling an upper-case table with upper-case pairs keeps it upper-case |
| DoubleDicts.TableUpper | lib/WorldBankData.py:213-214 | whatever the pairs, the stored keys and values are upper-case |
| DoubleDicts.TableKeys | lib/WorldBankData.py:213-214 | the stored keys are exactly the upper-cased members of the pairs |
| DoubleDicts.AvoidedMissing | lib/WorldBankData.py:213-214 | a string that is no pair member is not stored |
| DoubleDicts.PairBothWays | lib/WorldBankData.py:213-214 | a pair not repeated later is found both ways, each member giving the other upper-cased |
| DoubleDicts.DoubleDict.constructor | lib/utils.py:110-111 | a new dictionary is empty |
| DoubleDicts.DoubleDict.Set | lib/utils.py:113-115 | `d[key] = value` stores both directions (`Insert`) |
| DoubleDicts.DoubleDict.SetAll | lib/dataContainer.py:768-814 | a fill loop leaves the dictionary filled by its pairs in order |
| DoubleDicts.DoubleDict.Get | lib/utils.py:104-115 | found exactly when the key is stored, and then its value |
| Assoc.UpdateSnoc | lib/climateData.py:257-263 | one more line is one more dictionary assignment |
| Assoc.UpdateKeys | lib/climateData.py:257-263 | a key is present after the loop exactly when it was before or some line assigns it |
| Assoc.UpdateUntouched | lib/climateData.py:257-263 | a key no line assigns keeps its value |
| Assoc.UpdateLast | lib/climateData.py:257-263 | a key's value is the one given by the last line assigning it |
| Assoc.LastExists | lib/climateData.py:257-263 | every assigned key has a last assigning line |
| StationMappers.CoordinateEntryJoin | lib/climateData.py:258-263 | a line written `country,lat,lon` reads back as `(lat, lon) -> country` |
| StationMappers.CoordinateEntries | lib/climateData.py:253-263 | a wrong header fails the assertion, a line with fewer than three fields is an IndexError, and otherwise there is one entry per line after the header |
| StationMappers.LatLonLastWins | lib/climateData.py:257-263 | a later line with the same coordinates overwrites an earlier one |
| StationMappers.LatLon2Country.constructor | lib/climateData.py:242-249 | the table starts empty |
| StationMappers.LatLon2Country.LoadData | lib/climateData.py:253-263 | on success the table is the old one updated by every entry in order; otherwise it fails as the header check or the short line does |
| StationMappers.StationEntries | lib/climateData.py:478-491 | at most one assignment per line |
| StationMappers.StationEntriesSnoc | lib/climateData.py:478-491 | one more line adds its assignment exactly when its coordinate text is known |
| StationMappers.StationEntriesKeys | lib/climateData.py:478-491 | a station is assigned exactly when some line with known coordinates names it |
| StationMappers.StationEntriesSource | lib/climateData.py:478-491 | every assignment pairs a line's station with its coordinates' country |
| StationMappers.StationRegistered | lib/climateData.py:476-493 | a station is registered exactly when some line names it with known coordinates `(line[12:20], line[21:30])`, and then maps to such a line's country |
| StationMappers.WeatherStationMapper.constructor | lib/climateData.py:443-451 | the mapper keeps the coordinate table and starts with no stations |
| StationMappers.WeatherStationMapper.LoadData | lib/climateData.py:467-493 | an empty file is an IndexError, a wrong first line fails the assertion (stations unchanged), and otherwise the stations are those the lines register |
| StationMappers.WeatherStationMapper.Call | lib/climateData.py:453-457 | the station's country when registered, else the missing sentinel (NaN, or `False` for `station2country` at 495-499) |
| StationMappers.CodeEntryJoin | lib/climateData.py:517-521 | a tab-separated line reads back as its first two fields |
| StationMappers.CodeEntries | lib/climateData.py:512-521 | an empty file is an IndexError, a wrong header fails the assertion, and otherwise there is one pair per line from index 51 on |
| StationMappers.CodePreambleIgnored | lib/climateData.py:517 | lines 1 to 50 are never read |
| StationMappers.CodePairBothWays | lib/climateData.py:517-521 | a pair that no later line mentions maps both ways |
| StationMappers.CountryMapper2to3.constructor | lib/climateData.py:510 | the mapper starts empty |
| StationMappers.CountryMapper2to3.Load | lib/climateData.py:512-521 | on success the mapper is filled with every pair, symmetrically, in order |
| StationMappers.CountryMapper2to3.Call | lib/climateData.py:523-535 | the other code of the pair when known, else `False` |
| LineParsing.ParseAll | lib/climateData.py:294-296 | one parse per line when all succeed |
| LineParsing.ParseAllSnoc | lib/climateData.py:294-296 | one more line is one more loop step |
| LineParsing.ParseAllShape | lib/climateData.py:294-296 | the file fails exactly when some line fails, and otherwise holds every line's parse in place |
| LineParsing.ParseAllPrefixFails | lib/climateData.py:294-296 | a failing prefix makes the whole file fail |
| WeatherStations.ValueStart | lib/climateData.py:339-399 | day d's value is the five columns from 21 + 8(d-1) |
| WeatherStations.FlagSlice | lib/climateData.py:340-400 | day d's quality flag is column 21 + 8(d-1) + 6, except day 4 (column 53) and days 6 and 7 (empty slices) |
| WeatherStations.DaysAt | lib/climateData.py:402-419 | 31 (value, flag) pairs, day d at position d-1 |
| WeatherStations.KeptTexts | lib/climateData.py:424 | the kept texts are at most the days, and none is the missing marker |
| WeatherStations.KeptDays | lib/climateData.py:424 | only days up to `n` whose flag is blank and whose value is not "-9999" |
| WeatherStations.KeptDaysAll | lib/climateData.py:424 | every such day is listed, and the days ascend |
| WeatherStations.DayTextsSnoc | lib/climateData.py:424 | one more day adds its value exactly when it is kept |
| WeatherStations.KeptTextsUpTo | lib/climateData.py:424 | the kept texts of the first `n` days are the values of the kept days among them, in day order |
| WeatherStations.KeptTextsOfLine | lib/climateData.py:418-424 | the texts a line averages are exactly the values `DayValue(line, d)` of the days 1..31 that pass the keep test, in day order |
| WeatherStations.KeptTextsEmpty | lib/climateData.py:424 | nothing is kept exactly when no day passes the flag and marker test |
| WeatherStations.ParseValues | lib/climateData.py:424 | `float(item)` of every kept text, or a ValueError exactly when some text is not a number |
| WeatherStations.ParseValuesNth | lib/climateData.py:424 | the n-th value is the n-th text's number |
| WeatherStations.MeanWithin | lib/climateData.py:430 | a mean lies within any bounds of its values |
| WeatherStations.ReadLine | lib/climateData.py:330-432 | every failure (a year or month that is not a number, a kept value that is not a number) is a ValueError |
| WeatherStations.ReadLineNoValue | lib/climateData.py:427-430 | the value is missing exactly when no day is kept |
| WeatherStations.ReadLineValueWithin | lib/climateData.py:418-430 | the value lies within any bounds of the values of the kept days 1..31 |
| WeatherStations.FlagsOfDaysSixAndSevenIgnored | lib/climateData.py:350-352 | days 6 and 7 are kept exactly when their value is not -9999, whatever flag follows them |
| WeatherStations.DayFourDroppedWhenDayFiveMissing | lib/climateData.py:346-347 | day 4's flag is day 5's first value column, so when day 5 is -9999 day 4 is dropped |
| WeatherStations.ShortLineRejected | lib/climateData.py:399-424 | a line too short for day 31's value is a ValueError |
| WeatherStations.Parsed | lib/climateData.py:295-296 | one parse per line |
| WeatherStations.Values | lib/climateData.py:295-296 | one reading per successful parse |
| WeatherStations.ParsedStep | lib/climateData.py:295-296 | a good parse extends the readings by its own reading |
| WeatherStations.ParsedPrefix | lib/climateData.py:295-296 | the parses of one more line add that line's parse |
| WeatherStations.KeptStep | lib/climateData.py:295-314 | one more good line adds its record exactly when it is wanted |
| WeatherStations.ScannedStep | lib/climateData.py:295-314 | the loop state after one more good line: its parse appended, its record kept when wanted, and it is the last line read |
| WeatherStations.ScannedDone | lib/climateData.py:294-324 | after all lines, no line was read exactly when the file is empty, and otherwise `LoadOf` is the kept records or the placeholder from the last line |
| WeatherStations.LoadFrom | lib/climateData.py:286-327 | fails exactly when some line does not parse or the file is empty |
| WeatherStations.KeptRowsIff | lib/climateData.py:299-314 | a record is kept exactly when it comes from a reading in the year window, with a listed element and a value |
| WeatherStations.KeptRowsEmpty | lib/climateData.py:299-316 | no record is kept exactly when no reading passes the three tests |
| WeatherStations.LoadKeepsWanted | lib/climateData.py:299-314 | when a line is wanted, the records are exactly those of the wanted lines |
| WeatherStations.LoadPlaceholder | lib/climateData.py:316-324 | when none is wanted, the frame is one placeholder record, without a value, taken from the last line |
| WeatherStations.LoadErrors | lib/climateData.py:294-324 | an empty file leaves the placeholder's fields unbound, and a bad line is a ValueError |
| WeatherStations.WeatherStation.constructor | lib/climateData.py:268-281 | no station yet; the years and the country are stored; no data |
| WeatherStations.WeatherStation.Load | lib/climateData.py:286-327 | the data are the records `LoadOf` specifies, and `stationID` is that of the last line read; on failure the data are unchanged |
| WeatherSeverity.MinOf | lib/climateData.py:184 | `np.min`: a member no greater than any other |
| WeatherSeverity.MaxOf | lib/climateData.py:178 | `np.max`: a member no smaller than any other |
| WeatherSeverity.RangeShape | lib/climateData.py:183-185 | the members of a set of years within [lo, hi) listed once each, ascending |
| WeatherSeverity.DistinctShape | lib/climateData.py:183-184 | `set(group["Year"])`: each year once, the first being the minimum; the ascending order is the model's own (a Python set need not iterate in order), harmless because `firstYear` is taken with `np.min` |
| WeatherSeverity.IncreasingLength | lib/climateData.py:183-185 | a strictly increasing run within [lo, hi) has at most hi - lo members |
| WeatherSeverity.OfElement | lib/climateData.py:174 | the rows of one element, and only those |
| WeatherSeverity.OfMonth | lib/climateData.py:182 | the rows of one month, and only those |
| WeatherSeverity.BeforeNonEmpty | lib/climateData.py:190 | a year after some observed year has earlier observations |
| WeatherSeverity.DuringNonEmpty | lib/climateData.py:191 | an observed year has observations |
| WeatherSeverity.VarianceNonNegative | lib/climateData.py:195 | the population variance is not negative |
| WeatherSeverity.BandEquiv | lib/climateData.py:196-200 | for any standard deviation sd, the two-sided test "above mean + 1.54 sd or below mean - 1.54 sd" equals the squared test |
| WeatherSeverity.ExtremeEdges | lib/climateData.py:199-203 | a mean exactly on a band edge is normal, and with zero spread every other mean is extreme |
| WeatherSeverity.NoSpread | lib/climateData.py:199-203 | with zero spread, extreme exactly when the mean differs |
| WeatherSeverity.FlagFor | lib/climateData.py:184-203 | the flag is 0 or 1, and 0 for the first year |
| WeatherSeverity.FlagForTest | lib/climateData.py:189-203 | a later year is flagged 1 exactly when its mean is extreme against all strictly earlier years |
| WeatherSeverity.YearEntries | lib/climateData.py:185-203 | one entry per year |
| WeatherSeverity.YearEntriesAt | lib/climateData.py:185-203 | entry k is year k with its flag |
| WeatherSeverity.YearEntriesSnoc | lib/climateData.py:185-203 | the year loop's step |
| WeatherSeverity.GroupEntriesAt | lib/climateData.py:182-203 | one entry per distinct year of the group, in order |
| WeatherSeverity.GroupEntriesYears | lib/climateData.py:183-188 | each distinct year yields exactly one entry, and the first year's flag is 0 |
| WeatherSeverity.GroupEntriesFlags | lib/climateData.py:189-203 | every later year is flagged 1 exactly when its mean is extreme, else 0 |
| WeatherSeverity.MonthEntriesSnoc | lib/climateData.py:182 | the month loop's step |
| WeatherSeverity.ElementsEntriesSnoc | lib/climateData.py:173 | the element loop's step |
| WeatherSeverity.GroupEntriesFrom | lib/climateData.py:182-203 | every entry is of that element and month and of a year of the group |
| WeatherSeverity.MonthEntriesFrom | lib/climateData.py:182-203 | every entry of an element is of one of its months and years |
| WeatherSeverity.ElementsEntriesFrom | lib/climateData.py:173-203 | every entry is of a listed element whose years were not skipped |
| WeatherSeverity.StatisticsEntries | lib/climateData.py:173-203 | every entry has a 0/1 flag and an observed element, month and year; an element whose years do not reach back to 1950 and forward to 2013 contributes nothing |
| WeatherSeverity.Statistics | lib/climateData.py:173-203 | every entry carries the station's country, one of the six elements and a 0/1 flag |
| WeatherSeverity.GroupStatistics | lib/climateData.py:183-203 | the year loop produces the group's specified entries |
| WeatherSeverity.ElementStatistics | lib/climateData.py:174-203 | the month loop produces the element's specified entries |
| WeatherSeverity.GetStatistics | lib/climateData.py:161-207 | the nested loops produce the specified entries for a one-station frame |
| WeatherCollapse.RoundHalfEven | lib/climateData.py:221 | `np.round`: the nearest integer, a tie going to the even one |
| WeatherCollapse.RoundFlag | lib/climateData.py:221 | an average of 0/1 flags rounds to 1 exactly above one half; a 0.5 tie gives 0 |
| WeatherCollapse.CellFlags | lib/climateData.py:221 | at most one flag per station entry |
| WeatherCollapse.CellMonths | lib/climateData.py:228 | at most one month per entry |
| WeatherCollapse.CellMonthsFlags | lib/climateData.py:221-228 | a month is present exactly when its cell has flags |
| WeatherCollapse.CellFlagsWitness | lib/climateData.py:221 | a cell has flags exactly when some entry falls in it |
| WeatherCollapse.Ones | lib/climateData.py:228 | the count of 1 flags is at most the number of flags |
| WeatherCollapse.FlagSum | lib/climateData.py:221 | the sum of 0/1 flags is the count of ones |
| WeatherCollapse.CellFlagsBinary | lib/climateData.py:221 | the flags of a cell are 0 or 1 |
| WeatherCollapse.MonthFlagMajority | lib/climateData.py:221 | a month counts as extreme exactly when strictly more than half of its stations flag it |
| WeatherCollapse.MonthSumBound | lib/climateData.py:228 | the month sum is between 0 and the number of months |
| WeatherCollapse.YearValueBound | lib/climateData.py:226-228 | a year's value is between 0 and the number of distinct months, so at most 12 |
| WeatherCollapse.CollapseKeys | lib/climateData.py:233-235 | a (country, year) row exists exactly when the year is at least 1980 and some entry has that country and year; its elements are exactly those observed |
| WeatherCollapse.Collapse | lib/climateData.py:233-235 | a (country, year) row only for a year from 1980 on that some entry of that country has |
| WeatherCollapse.CollapseBound | lib/climateData.py:218-235 | every value of the table lies in 0..12 |
| WeatherCollapse.ConcatMembers | lib/climateData.py:122 | `pd.concat` holds exactly the stations' records |
| WeatherCollapse.Observations | lib/climateData.py:210-211 | every observation comes from a record with a value |
| WeatherCollapse.StationIds | lib/climateData.py:211 | the station groups: each identifier once, each of some record |
| WeatherCollapse.OfStation | lib/climateData.py:211 | a station's group is exactly its records |
| WeatherCollapse.OfStationOne | lib/climateData.py:167-169 | a station's group passes the one-station assertion |
| WeatherCollapse.ElementsEntriesNone | lib/climateData.py:173-179 | elements that all produce nothing produce nothing together |
| WeatherCollapse.LoneRecordSkipped | lib/climateData.py:178-179 | a one-record frame, such as a station's placeholder, yields no entry |
| WeatherCollapse.StationsStatisticsFrom | lib/climateData.py:130-211 | every entry has a 0/1 flag, a month and year of one of the station's records, and the country the mapper gives that station |
| WeatherCollapse.Combine | lib/climateData.py:122-221 | with no station, a ValueError; with stations but no rows at all, a KeyError; no other failure |
| WeatherCollapse.ConcatEmpty | lib/climateData.py:122 | stations without rows concatenate to no rows |
| WeatherCollapse.NoRowsNoEntries | lib/climateData.py:122-207 | stations without rows yield no observation and no entry |
| WeatherCollapse.CombineTable | lib/climateData.py:105-124 | a combined table that loads has values in 0..12, and only years from 1980 and countries the mapper assigns to some station |
| Utils.PresentFrom | lib/utils.py:58 | the present positions, within bounds and strictly increasing |
| Utils.PresentSound | lib/utils.py:58 | every listed position holds a value |
| Utils.PresentComplete | lib/utils.py:58 | every position holding a value is listed |
| Utils.Take | lib/utils.py:62-66 | Python slicing with the bound clamped to the length |
| Utils.SplitNA | lib/utils.py:35-71 | max(0, m-1) chunk pairs, m being the number of present values |
| Utils.ChunkBounds | lib/utils.py:61-66 | chunk i runs from the i-th present position to the next, both ends included, in x and in y |
| Utils.ChunkShape | lib/utils.py:58-69 | every chunk starts and ends on a value, with only missing values strictly inside |
| Utils.ChunksShareBoundary | lib/utils.py:61-69 | consecutive chunks share exactly their boundary value |
| Utils.ChunksWithinPresent | lib/utils.py:58-69 | missing values before the first or after the last value are in no chunk |
| Utils.GlueRange | lib/utils.py:61-69 | chunks glued at their shared ends give back the span they cover |
| Utils.SplitChunks | lib/utils.py:58-69 | each `y` chunk runs from one present position to the next, positions increasing |
| Utils.GlueChunks | lib/utils.py:58-69 | the glued chunks are exactly y from its first value to its last: nothing lost or repeated |
| Utils.Line | lib/utils.py:286-293 | the loop's result is `LineOf(idx)` |
| Utils.LineRange | lib/utils.py:286-293 | only -6..11 give a pair; for 0..11 the pair is `(colors[idx mod 6], linestyle[idx div 6])` |
| Utils.LineInjective | lib/utils.py:286-293 | distinct indices in 0..11 give distinct pairs |
| CountryMentions.TallyZero | lib/utils.py:215 | a code has a positive tally exactly when it is in the counter |
| CountryMentions.Bump | lib/utils.py:215 | `setdefault(k, []).append(1)` adds one to k's tally only |
| CountryMentions.NamesSnoc | lib/utils.py:197-200 | a name maps to a code in a longer prefix exactly when it did before or the new name maps to it |
| CountryMentions.RunKeys | lib/utils.py:196-213 | the codes counted are those counted before plus the codes of the recognised names |
| CountryMentions.RunSum | lib/utils.py:208-212 | in sum mode each code's count grows by its names' counts |
| CountryMentions.SumNone | lib/utils.py:208-212 | a code that no name maps to gains nothing |
| CountryMentions.RunMax | lib/utils.py:201-207 | in max mode from empty, each code's count is one of its names' counts and at least all of them |
| CountryMentions.RunTally | lib/utils.py:215 | each recognised name adds one to its code's tally, which is never reset |
| CountryMentions.RunMaxFlag | lib/utils.py:201-202 | `maximum` ends up set exactly when it was, or max mode met a recognised name |
| CountryMentions.DivideAll | lib/utils.py:231-232 | the division loop keeps the counted codes |
| CountryMentions.DivideOnce | lib/utils.py:231-232 | with distinct tally keys, each code's count is divided once by its tally |
| CountryMentions.AverageTwice | lib/utils.py:220-237 | `averageCount` is not idempotent: a second run divides by the tally again |
| CountryMentions.CountForWitness | lib/utils.py:215 | a positive tally comes from a recognised name |
| CountryMentions.RunDistinct | lib/utils.py:215 | aggregating keeps the tally keys distinct |
| CountryMentions.AverageOfFresh | lib/utils.py:220-237 | after a fresh sum, a code's average is its names' total divided by their number |
| CountryMentions.CountForPositive | lib/utils.py:215 | a recognised name's code has a positive tally |
| CountryMentions.TallyPositive | lib/utils.py:215 | every key of the counter has a positive tally |
| CountryMentions.Country.constructor | lib/utils.py:160-168 | no data, no aggregate, no tally, unblocked, not in max mode |
| CountryMentions.Country.Call | lib/utils.py:171-183 | blocked without `force`: no change; otherwise a name already present fails the assertion, and a new one is added with its count |
| CountryMentions.RunSnoc | lib/utils.py:197-213 | one more entry is one more loop step |
| CountryMentions.Country.Aggregate | lib/utils.py:185-218 | a fresh `countryCount` from one pass over the entries; the tally and the `maximum` flag carry over and grow |
| CountryMentions.Country.AverageCount | lib/utils.py:220-237 | blocks, sums only when nothing is aggregated yet, divides by the tallies, and adds "YEAR" |
| CountryMentions.Country.MaxCount | lib/utils.py:239-257 | blocks, takes maxima only when nothing is aggregated yet, fails unless max mode was used, and adds "YEAR" |
| CountryMentions.AverageStep | lib/utils.py:220-237 | the step blocks the country and keeps its data; a result carries "YEAR" and is the very map stored as the count; a failure is a KeyError |
| CountryMentions.MaxStep | lib/utils.py:239-257 | the step blocks the country and keeps its data; a result carries "YEAR" and is the very map stored as the count; an AssertionError exactly when max mode was never used |
| CountryMentions.MaxAfterAverage | lib/utils.py:228-252 | after `averageCount`, `maxCount` fails its assertion |
| CountryContainers.Insert | lib/utils.py:139 | insertion adds exactly one entry |
| CountryContainers.SortByYear | lib/utils.py:139 | sorting is a permutation |
| CountryContainers.InsertYearsFrom | lib/utils.py:139 | insertion keeps a lower bound on the years |
| CountryContainers.InsertSorted | lib/utils.py:139 | insertion keeps the entries sorted by year |
| CountryContainers.InsertOfYear | lib/utils.py:139 | insertion puts an entry before the others of its year and changes no other year |
| CountryContainers.SortByYearSortedStable | lib/utils.py:139 | the result is ascending by year and keeps the order within a year (stable) |
| CountryContainers.SortMembers | lib/utils.py:139 | sorting keeps the same entries |
| CountryContainers.SortCountries | lib/utils.py:139 | sorting keeps the same `Country` objects |
| CountryContainers.RowsFrom | lib/utils.py:141-145 | the comprehension of `save` from given country states: what each call returns at its time, in order, or the first error; every country keeps a state, and success gives one value per entry |
| CountryContainers.RowCallAliased | lib/utils.py:231-257 | `averageCount()` and `maxCount()` return the country's own `countryCount` dictionary, not a copy |
| CountryContainers.SavedRows | lib/utils.py:141-148 | the rows `from_dict` reads: each entry's row is its country's dictionary after all calls, so entries of one country have equal rows; an error exactly when the comprehension fails |
| CountryContainers.RowsLastCall | lib/utils.py:141-145 | a country's final dictionary is the value returned by the last entry naming it |
| CountryContainers.SavedRowsLast | lib/utils.py:141-148 | each saved row is what the last call on its country returned (a country listed twice shows its second result in both rows) |
| CountryContainers.SavedRowsDistinct | lib/utils.py:141-148 | over distinct countries the saved rows are exactly the calls' own results |
| CountryContainers.SavedRowsYear | lib/utils.py:141-148 | every saved row carries its entry's year under "YEAR" |
| CountryContainers.StoredRows | lib/utils.py:143-145 | the entries' countries' dictionaries as they are now, one per entry |
| CountryContainers.StoredSaved | lib/utils.py:143-145 | once the calls have left their states, the dictionaries read back are the saved rows |
| CountryContainers.DispatchRows | lib/utils.py:141-148 | the saved rows are one per entry, each with its year; in "max" mode they exist exactly when every country was in max mode, and then every country is left in max mode and blocked, and otherwise the result is an AssertionError |
| CountryContainers.RowsUntouched | lib/utils.py:141-145 | a country no entry names keeps its state |
| CountryContainers.RowsFromErr | lib/utils.py:141-145 | the first error ends the comprehension: nothing after it runs |
| CountryContainers.RowsSnoc | lib/utils.py:141-145 | one more entry calls its own country on the state the earlier calls left, and changes no other country |
| CountryContainers.RowsDistinct | lib/utils.py:141-145 | over distinct countries, success exactly when every country's call succeeds, each row and each final state being that country's own call from its old state |
| CountryContainers.RowCallYear | lib/utils.py:220-257 | `averageCount()` and `maxCount()` both put the country's year under "YEAR" |
| CountryContainers.RowsYear | lib/utils.py:141-145 | every row carries its entry's year under "YEAR" |
| CountryContainers.MaxCallLike | lib/utils.py:239-257 | `maxCount()` succeeds exactly when its aggregation is in max mode, fails the assertion otherwise, and leaves the country blocked with a stored aggregation |
| CountryContainers.MaxBaseStored | lib/utils.py:244-250 | with a stored aggregation, `maxCount()` keeps the country's mode |
| CountryContainers.MaxRowsStates | lib/utils.py:143-145 | after a successful "max" comprehension every country is in max mode, blocked, with a stored aggregation |
| CountryContainers.MaxRowsOk | lib/utils.py:143-145 | the "max" comprehension succeeds exactly when every country's aggregation is in max mode (a repeated country included), and otherwise fails the assertion |
| CountryContainers.MaxRows | lib/utils.py:143-145 | both of the above together |
| CountryContainers.CallOne | lib/utils.py:142-145 | one call is `maxCount()` in "max" mode and `averageCount()` otherwise, from the country's old state |
| CountryContainers.ReachedEnd | lib/utils.py:141-145 | when the loop stops, at the end or at an error, the states reached are the final ones |
| CountryContainers.CountStep | lib/utils.py:141-145 | one loop step extends the rows by its call or ends them with its error |
| CountryContainers.CountRows | lib/utils.py:141-145 | the loop returns what each call returned at its time (or the first error), and every country ends in the state the comprehension leaves it, both computed from the countries' old states |
| CountryContainers.Dispatch | lib/utils.py:141-148 | "avg" calls `averageCount()` and "max" calls `maxCount()` on each country in order, the new states being `RowsFrom`'s and the rows `SavedRows`, read from the countries' dictionaries after the last call; any other `count` changes nothing; on success one row per entry with its year; in "max" mode success exactly when every country was in max mode, each then in max mode and blocked, and an AssertionError otherwise |
| CountryContainers.CountryContainer.constructor | lib/utils.py:124-125 | the container starts empty |
| CountryContainers.CountryContainer.Call | lib/utils.py:127-128 | appends the country with its year |
| CountryContainers.CountryContainer.Save | lib/utils.py:130-152 | sorts by year first and keeps the same countries; then everything `Dispatch` states, on the sorted entries and the countries' states before the call |
| WorldBankIndicators.WorldBankIndicatorMapper.constructor | lib/WorldBankData.py:212-214 | the table is the pairs upper-cased and stored both ways |
| WorldBankIndicators.WorldBankIndicatorMapper.Call | lib/WorldBankData.py:216-229 | the entry of the upper-cased indicator when present, else `False`; never raises |
| WorldBankIndicators.CallShape | lib/WorldBankData.py:212-229 | found exactly when the upper-cased indicator is a pair member upper-cased; the answer ignores case and is upper-case |
| WorldBankIndicators.CallBothWays | lib/WorldBankData.py:212-229 | a pair is found both ways, the name giving the upper-cased code and the code giving the upper-cased name |
| WorldBankIndicators.CallUnknown | lib/WorldBankData.py:225-227 | an indicator matching no pair member gives `False` |
| WorldBankIndicatorTable.NewMapper | lib/WorldBankData.py:48-214 | the mapper is filled from the literal list |
| WorldBankData.YearColumns | lib/WorldBankData.py:281 | exactly the all-digit column names with a value of at least 1980 |
| WorldBankData.YearColumnsConcat | lib/WorldBankData.py:281 | the selection keeps the table's order |
| WorldBankData.YearCells | lib/WorldBankData.py:281-284 | each row has a cell for each selected column |
| WorldBankData.MeltColumn | lib/WorldBankData.py:284 | one record per row for a melted column, in order |
| WorldBankData.MeltLength | lib/WorldBankData.py:284 | one record per (column, row) pair |
| WorldBankData.MeltHas | lib/WorldBankData.py:284 | every (row, column) record is present |
| WorldBankData.MeltFrom | lib/WorldBankData.py:284 | every record is some (row, column) record |
| WorldBankData.Reshape | lib/WorldBankData.py:278-286 | an empty table has no first indicator code (KeyError); otherwise the value column is named after it |
| WorldBankData.ReshapeYears | lib/WorldBankData.py:278-286 | one record per row and year column, each with a year from 1980 on and a country of the table |
| WorldBankData.ZipNames | lib/WorldBankData.py:247-248 | exactly the listed names ending in ".zip" |
| WorldBankData.DataMembers | lib/WorldBankData.py:264 | an empty member name is an IndexError; otherwise exactly the names neither prefixed "Metadata" nor starting with "[" |
| WorldBankData.DataFilter | lib/WorldBankData.py:264 | the comprehension keeps exactly the data members |
| WorldBankData.DataMember | lib/WorldBankData.py:264-265 | the one member read is a data member of the archive |
| WorldBankData.DataMemberUnique | lib/WorldBankData.py:264-265 | a member is chosen exactly when no name is empty and exactly one is data |
| WorldBankData.LoadPlanSnoc | lib/WorldBankData.py:251-275 | one more file extends the plan as the loop step decides: an error, a skipped file, or its (file, member) pair |
| WorldBankData.LoadPlan | lib/WorldBankData.py:251-275 | at most one (file, member) pair per listed file |
| WorldBankData.LoadPlanFails | lib/WorldBankData.py:251-275 | the load fails exactly when the step for some listed file fails |
| WorldBankData.LoadPlanSound | lib/WorldBankData.py:251-275 | every file read is a listed zip file with a known indicator, read through its single data member |
| WorldBankData.LoadPlanComplete | lib/WorldBankData.py:251-275 | every listed file with a known indicator is read |
| WorldBankData.Load | lib/WorldBankData.py:245-276 | the loop over the zip files follows the load plan |
| WorldBankData.ErrorPropagates | lib/WorldBankData.py:251-275 | an error stops the loop whatever files follow |
| WorldBankData.AsList | lib/WorldBankData.py:314-315 | a non-list argument becomes a one-element list |
| WorldBankData.Understood | lib/WorldBankData.py:318-326 | at most one entry per input |
| WorldBankData.UnderstoodConcat | lib/WorldBankData.py:318-326 | the loop keeps order |
| WorldBankData.UnderstoodShape | lib/WorldBankData.py:318-326 | unrecognised countries are dropped, names not three characters long become codes, and nothing is left exactly when no country is recognised |
| WorldBankData.UnderstoodCountries | lib/WorldBankData.py:318-326 | the loop builds `Understood` |
| WorldBankData.YearsFor | lib/WorldBankData.py:343 | at most one year per row |
| WorldBankData.ValuesFor | lib/WorldBankData.py:344 | one value per selected year |
| WorldBankData.SeriesAsWrittenMisaligned | lib/WorldBankData.py:340-349 | as written, with no indicator column one country gives two x entries and one y entry |
| WorldBankData.SeriesAsWritten | lib/WorldBankData.py:340-349 | as written, c is the countries and y has one entry each, but x has two entries per country when data is loaded without the indicator column |
| WorldBankData.SeriesOf | lib/WorldBankData.py:340-349 | corrected: one x, y and c entry per country, with c the countries in order |
| WorldBankData.SeriesOfAt | lib/WorldBankData.py:340-349 | corrected: each x entry is as long as its y entry, and both are empty when the data or column is missing |
| WorldBankData.Indicator | lib/WorldBankData.py:288-351 | the method's result is `IndicatorResult`, whose lists are those of the corrected loop `SeriesOf` in the Findings; as written, a missing indicator column gives `x` an extra entry per country |
| WorldBankData.IndicatorResult | lib/WorldBankData.py:288-351 | an IndexError exactly when some country is understood and the understood indicator is shorter than three characters; `None` exactly when no country or the indicator is not understood; otherwise c is the understood countries and x, y and c are aligned |
| WorldBankData.SeriesOfSnoc | lib/WorldBankData.py:340-349 | corrected: one more country appends its years, values and name |
| WorldBankData.BuildSeries | lib/WorldBankData.py:340-349 | the loop builds the corrected series |
| WorldBankData.IndicatorShape | lib/WorldBankData.py:314-351 | `None` exactly when no country is understood or the indicator is unknown; any other result lists the understood countries in order, with x, y and c aligned and non-empty |
| DataContainer.DataClassMapper.constructor | lib/dataContainer.py:540-814 | one double dictionary per category, filled with the upper-cased pairs |
| DataContainer.DataClassMapper.Cascade | lib/dataContainer.py:824-875 | the first category from k on that holds the key answers, else ("None", "None") |
| DataContainer.DataClassMapper.Map | lib/dataContainer.py:817-875 | `_map`/`__call__`: the first category holding the upper-cased name, with its entry |
| DataContainer.DataClassMapper.Convert | lib/dataContainer.py:820-822 | a ValueError exactly for an empty vector; otherwise the (category, entry) pairs standing for the two output arrays, element `i` being `_map` of element `i` |
| DataContainer.DataClassMapper.MapAll | lib/dataContainer.py:820-822 | one `_map` answer per element, in order |
| DataContainer.MapCaseless | lib/dataContainer.py:824-875 | the answer depends only on the upper-cased name |
| DataContainer.MapUnknown | lib/dataContainer.py:874-875 | a name that matches no pair member gives ("None", "None") |
| DataContainer.MapFirst | lib/dataContainer.py:824-872 | the first category with a matching member answers |
| DataContainer.MapPair | lib/dataContainer.py:768-875 | both members of a pair map to its category, each giving the other upper-cased; so an (x, x) pair gives x upper-cased |
| DataContainer.Columns | lib/dataContainer.py:294-498 | a category's column names, in order |
| DataContainer.OrderedColumnsConcat | lib/dataContainer.py:501-517 | categories' columns follow one another in order |
| DataContainer.OrderedColumnsMembers | lib/dataContainer.py:501-517 | a column is listed exactly when some category has it |
| DataContainer.OrderColumns | lib/dataContainer.py:519-524 | Year, Country and the ordered columns when all are there; otherwise the ordered columns alone, which raise when one of them is missing |
| DataContainer.Policy | lib/dataContainer.py:98-278 | every listed column and weather column is aggregated, by sum exactly for the UNHCR and OECD columns, by mean otherwise |
| DataContainer.PolicyWeather | lib/dataContainer.py:273-277 | the weather columns are averaged |
| DataContainer.Present | lib/dataContainer.py:98 | the present values of a column |
| DataContainer.Aggregate | lib/dataContainer.py:98-278 | sum or mean, skipping missing values; missing exactly when no value is present |
| DataContainer.SumSplits | lib/dataContainer.py:98-115 | summing a group split by origin is the sum of the halves |
| DataContainer.MeanBounded | lib/dataContainer.py:116-277 | a mean lies within any bounds of its values |
| DataContainer.GroupRows | lib/dataContainer.py:98 | a (Year, Country) group is exactly its rows, whatever their origin |
| DataContainer.ColumnOf | lib/dataContainer.py:98 | one column of the rows |
| DataContainer.Collapse | lib/dataContainer.py:88-281 | a KeyError exactly when the table lacks a policy column; otherwise one row per (Year, Country), each with every policy column |
| DataContainer.CollapseCell | lib/dataContainer.py:88-281 | each collapsed cell is its column over the group's rows (all origins together) aggregated as the policy says: summed for UNHCR and OECD counts, averaged otherwise |
| DataContainer.OrderAfterCollapse | lib/dataContainer.py:284-524 | after `collapse`, `orderColumns` takes its first branch: Year, Country and the category columns |
| DataContainerTables.NewDataClassMapper | lib/dataContainer.py:538-814 | the mapper over the literal categories |
| UnhcrData.Recent | lib/unhcrData.py:60 | exactly the rows of 1980 or later |
| UnhcrData.Redact | lib/unhcrData.py:57-67 | a `*` cell becomes missing, a blank cell (NaN as read) stays missing, and any other cell is kept |
| UnhcrData.ToFloat | lib/unhcrData.py:69-76 | a missing cell (blank or redacted) stays missing, an integer text converts to its value, and anything else is a ValueError |
| UnhcrData.ToFloats | lib/unhcrData.py:67-76 | every count cell redacted and converted, or a ValueError exactly when one cannot be |
| UnhcrData.CleanRow | lib/unhcrData.py:67-76 | a row keeps its year and width, and its destination and origin are redacted |
| UnhcrData.CleanRows | lib/unhcrData.py:67-76 | every row cleaned, or a ValueError exactly when one fails |
| UnhcrData.Renamed | lib/unhcrData.py:79-81 | the first two columns become Year and Country, and the others keep their names and order |
| UnhcrData.Bucketed | lib/unhcrData.py:88-98 | a destination or origin the mapper does not understand becomes "Various/Unknown" |
| UnhcrData.Keys | lib/unhcrData.py:100 | the distinct (Year, Country, Origin) keys, each once |
| UnhcrData.GroupColumn | lib/unhcrData.py:100 | a column of one group |
| UnhcrData.GroupSum | lib/unhcrData.py:100-102 | one row per key, each column summed over the key's rows |
| UnhcrData.Load | lib/unhcrData.py:43-111 | a ValueError exactly when cleaning a recent row fails; otherwise one row per (Year, Country, Origin) key of the cleaned recent rows, both countries through the mapper, with one sum per count column |
| UnhcrData.LoadSum | lib/unhcrData.py:43-111 | each count of a loaded row is that column summed over the cleaned recent rows of the row's key |
| UnhcrData.LoadFails | lib/unhcrData.py:43-111 | a ValueError exactly when a recent row holds a count that is neither blank, `*` nor a number |
| UnhcrData.RecentKey | lib/unhcrData.py:88-111 | every group key has a year from 1980 on and a destination and origin that the mapper understands or that are "Various/Unknown" |
| UnhcrData.LoadShape | lib/unhcrData.py:88-111 | every output row's country and origin come from the mapper (of a name or of the bucket) |
| UnhcrData.GroupSumKeys | lib/unhcrData.py:100-102 | each key occurs exactly once, and sums exactly its rows |
| UnhcrData.RedactedIsMissing | lib/unhcrData.py:57-100 | a redacted or blank cell is missing, not 0: it changes no sum, and a group of only missing cells has no sum |
| UnhcrData.BlankRowLoads | lib/unhcrData.py:57-76 | a row whose counts are all blank or `*` cleans without error, every count missing |
| OecdData.Unflagged | lib/oecdData.py:70 | exactly the rows without any flag |
| OecdData.Select | lib/oecdData.py:75 | one selected row per row |
| OecdData.Keys | lib/oecdData.py:76-80 | the pivot's index: each (Year, Country, Country of origin) of a counted row, once |
| OecdData.Variables | lib/oecdData.py:77 | the pivot's columns: each variable of a counted row, once |
| OecdData.CellValues | lib/oecdData.py:76-80 | exactly the values observed for one cell |
| OecdData.Pivot | lib/oecdData.py:76-80 | one row per key, one cell per variable |
| OecdData.Load | lib/oecdData.py:47-86 | a non-zip file fails the assertion; otherwise the variables of the unflagged rows, and row `i` is the pivot's row `i` with both country columns through the mapper |
| OecdData.LoadCell | lib/oecdData.py:47-86 | each loaded row is a key of the unflagged rows with both countries mapped; a cell is present exactly when some unflagged row observes it, and then lies within any bounds of those rows |
| OecdData.FlaggedRowIgnored | lib/oecdData.py:70 | a row carrying a flag has no effect |
| OecdData.UncountedRowIgnored | lib/oecdData.py:76-80 | a row with a missing value, destination or origin has no effect on the pivot |
| OecdData.PivotCell | lib/oecdData.py:76-80 | a cell is present exactly when some row observes it, and then the mean lies within any bounds of those rows |
| OecdData.PivotNoEmptyLines | lib/oecdData.py:76-80 | no pivot row or column is entirely missing |
| NewspaperFrames.Basename | lib/newspaperData.py:42 | the part of the path after the last `/` |
| NewspaperFrames.SourceName | lib/newspaperData.py:42 | the source name has no `/` and no `_` |
| NewspaperFrames.SourceNameShape | lib/newspaperData.py:42 | the source name is the basename up to its first `_` |
| NewspaperFrames.SourceNameExample | lib/newspaperData.py:42 | a file "d/NYT_" is registered as "NYT" |
| NewspaperFrames.Dropped | lib/newspaperData.py:55 | the first column removed; a table without columns is an IndexError |
| NewspaperFrames.ValueColumns | lib/newspaperData.py:58 | exactly the columns not named YEAR, in order |
| NewspaperFrames.MeltColumn | lib/newspaperData.py:58 | one record per row for a column |
| NewspaperFrames.MeltLength | lib/newspaperData.py:58 | one record per (column, row) pair |
| NewspaperFrames.MeltRecords | lib/newspaperData.py:58 | a record is present exactly when it is some row's record under some melted column |
| NewspaperFrames.Load | lib/newspaperData.py:52-60 | fails when there is no column to drop or no YEAR column; otherwise the value column is "Mentions_" + name and the records are the melt, by YEAR, of the table without its row numbers |
| NewspaperFrames.LoadRecords | lib/newspaperData.py:52-60 | the loaded file has one record per (row, non-YEAR column) pair, and a record is loaded exactly when it is some row's YEAR, column name and cell |
| NewspaperFrames.Matches | lib/newspaperData.py:50 | the right records with a (YEAR, Country) key; none exactly when no key matches |
| NewspaperFrames.Joined | lib/newspaperData.py:50 | a left row gives at least one merged row |
| NewspaperFrames.MergeRows | lib/newspaperData.py:50 | the left merge has at least the left rows |
| NewspaperFrames.MergeNames | lib/newspaperData.py:50 | a new name is appended; a repeated one gets `_x`/`_y` suffixes |
| NewspaperFrames.JoinedExtends | lib/newspaperData.py:50 | every merged row of a left row extends it |
| NewspaperFrames.MergeKeepsLeft | lib/newspaperData.py:50 | every merged row extends a left row, and every left row is extended: none is lost |
| NewspaperFrames.MergeWidth | lib/newspaperData.py:50 | every merged row is one cell wider |
| NewspaperFrames.MatchesUnique | lib/newspaperData.py:50 | with unique right keys, at most one match |
| NewspaperFrames.JoinedUnique | lib/newspaperData.py:50 | with unique right keys, one merged row carrying the match or a missing value |
| NewspaperFrames.MergeUnique | lib/newspaperData.py:50 | with unique right keys, the merge keeps the left rows one for one |
| NewspaperFrames.Merge | lib/newspaperData.py:50 | the merge adds one name, appended as is when it is new, and keeps at least the left rows |
| NewspaperFrames.AddedWellFormed | lib/newspaperData.py:47-50 | adding keeps the data well formed |
| NewspaperFrames.Position | lib/newspaperData.py:94 | the first position of a column name |
| NewspaperData.NewspaperData.constructor | lib/newspaperData.py:33-38 | no data and no columns |
| NewspaperData.NewspaperData.Add | lib/newspaperData.py:40-50 | the source name is appended once; the first success sets the data and later ones are left-merged; a failure leaves the data |
| NewspaperData.NewspaperData.Extract | lib/newspaperData.py:92-95 | YEAR plus one mentions series per registered source, in order; a KeyError exactly when a source's column is missing |
| NytArticles.Lowered | lib/newspaper/nytimesarticles.py:81-83 | a string value loses its ASCII capitals and keeps its length; a bool is untouched |
| NytArticles.BoolText | lib/newspaper/nytimesarticles.py:98-100 | a bool becomes "true" or "false"; a string is untouched |
| NytArticles.Encoded | lib/newspaper/nytimesarticles.py:124-125 | both encodings, one parameter per parameter |
| NytArticles.EncodedValues | lib/newspaper/nytimesarticles.py:124-125 | after encoding, every value is a lowercase string, keys are unchanged, and a bool is "true" or "false" |
| NytArticles.EncodedIdempotent | lib/newspaper/nytimesarticles.py:124-125 | encoding twice is encoding once |
| NytArticles.TerminatedSnoc | lib/newspaper/nytimesarticles.py:129-145 | appending a text to the list appends it and its `&` to the query |
| NytArticles.TerminatedJoin | lib/newspaper/nytimesarticles.py:127-147 | texts each followed by `&` are the same as the texts joined by `&` with an empty last part |
| NytArticles.QuerySnoc | lib/newspaper/nytimesarticles.py:129-145 | one more parameter appends its `k=v&` |
| NytArticles.Pieces | lib/newspaper/nytimesarticles.py:145 | the `k=v` piece of each parameter |
| NytArticles.QueryJoin | lib/newspaper/nytimesarticles.py:127-147 | the query is the pieces joined by `&` with an empty last part |
| NytArticles.QuerySplits | lib/newspaper/nytimesarticles.py:127-147 | without `&` in keys and values, splitting the query at `&` gives back the pieces |
| NytArticles.ArticleApi.constructor | lib/newspaper/nytimesarticles.py:61-71 | stores the key and the format "json" |
| NytArticles.ArticleApi.Create | lib/newspaper/nytimesarticles.py:61-74 | no key raises NoAPIKeyException; otherwise the key and the format "json" |
| NytArticles.ArticleApi.Utf8Encode | lib/newspaper/nytimesarticles.py:76-91 | every value lowered in place, keys kept |
| NytArticles.ArticleApi.BoolEncode | lib/newspaper/nytimesarticles.py:93-102 | every bool replaced by its lowercase name, in place |
| NytArticles.ArticleApi.Options | lib/newspaper/nytimesarticles.py:104-147 | the encoded parameters as `k=v&`, in order; "" for none |
| NytArticles.ArticleApi.SearchUrl | lib/newspaper/nytimesarticles.py:166-173 | root + format + "?" + query + "api-key=" + key, with the stored format and key when none is passed |

## Left out

- Plotting: `show`, `plotWithNA`, the figure helpers, `mpl.rc`, and all of lib/migrationData.py.
- File, zip, tar and CSV reading and writing. Parsers take lines or records; `Country.save` and `to_csv` are not modelled; `zipfile.is_zipfile` is a boolean parameter.
- `DataContainer._loadData`'s outer `pd.merge` joins, and the World Bank loop's merge of one file into the next; the load plan records which files are read.
- lib/countryMentionNYT.py, a network scrape script.
- The HTTP request, JSON decoding and 403 handling of `articleAPI.search`.
- NytArticles.ArticleApi.Options: the list and `fq` branches, and values other than strings and bools, are not modelled. Their byte/str behaviour depends on the Python version.
- Floating point: means and variances are exact reals; the square root is avoided by the equivalent squared test.
- The commented-out geocoding of `WeatherStationMapper`.
- CountryCodes.LookupIdempotent: this and the other lookup and listing lemmas are stated for every mapper satisfying `Valid`, which `NewMapper` proves of the literal's mapper; they are not restated on the literal itself.
- lib/countryCodeMapper.py (the `CountryCodeMapper` class with `convert` and `__call__`) is not part of this model. The loaders and `Country` both use it (lib/utils.py:31, 162): the loaders take it as a function, and `Country` takes it as an abstract `Mapper`. `CountryMentions.AverageOfFresh` assumes that mapper is idempotent (a code maps to itself), because the tally at lib/utils.py:215 maps the code a second time.
- DataContainer.Aggregate: a group with no value gives a missing value; whether pandas gives 0 or NaN for such a sum depends on its version.
- OecdData.Keys and OecdData.Variables: rows and columns are in order of first appearance; pandas sorts them. OecdData.Load does not model the origin column's name "Country of origin".
- UnhcrData.Keys: groups are in order of first appearance; pandas sorts them.
- UnhcrData.ToFloat: only integer texts (an optional sign, then digits) are modelled as numbers. Python float syntax such as "1.5", "1e3", "nan" or text with surrounding blanks is a ValueError in the model, where `astype(float)` converts it.
- UnhcrData.LoadFails: states the ValueError condition with the integer-only conversion of `UnhcrData.ToFloat`, so it is weaker than the source for counts written in float syntax.
- WeatherCollapse.CombineTable: the table is a map, so pandas' row order is not modelled. When some station has rows but none yields an entry, the model gives the KeyError; pandas' behaviour on such an all-empty `apply` depends on its version.
- WeatherStations.ParseValues: GHCN values are integer texts; any other text, such as "1.5", is a ValueError in the model.
- WeatherStations.WeatherStation.Load: on a bad line the contract states only that `data` is unchanged; `stationID` keeps the station of the last good line, as in the source, but the contract does not say so. The dead counter `count` is not modelled.
- WorldBankIndicators.CallUnknown: the typos "CO2 emissions (kt)]" and "Labor force, total]" (lib/WorldBankData.py:70, 124) are covered by this lemma for any list. They are not proved on the literal list itself, whose size is beyond what the verifier can reason about directly.
- DataContainerTables.NewDataClassMapper: the 16 literal tables are passed to a generic constructor. Facts about individual entries are proved for any tables, not on the literal.
- WorldBankIndicators.WorldBankIndicatorMapper.Call: case mapping is modelled on the ASCII letters only; Python's `upper()` also maps other letters (accented ones, "ß" to "SS").
- DataContainer.DataClassMapper.Map: case mapping is modelled on the ASCII letters only; Python's `upper()` also maps other letters (accented ones, "ß" to "SS").
- DataContainer.Policy: AWND and the other weather elements are absent from `orderColumns`; the policy's weather columns are PRCP, SNOW, SNWD, TMAX and TMIN as listed.
- NewspaperFrames.Load: the CSV is assumed rectangular (every row as wide as the header).
- Text.IsSpace: `strip()` is modelled as removing ASCII whitespace only (space, tab, newline, carriage return, vertical tab, form feed); Python's `str.strip()` also removes \x1c-\x1f, \x85, \xa0 and the other Unicode spaces. This affects `Text.Strip` and the station and weather line parsers that use it.

## Findings

| source | as written | input that shows it | evidently intended | confidence | as-written member | corrected member |
|---|---|---|---|---|---|---|
| lib/WorldBankData.py:341-349 | `x.append(...)` runs before `self.data[name]` raises KeyError, and the `except` branch appends to `x` again | data loaded without a column for the indicator, one country "DEU": x gets two entries, y and c one each | one x, y and c entry per country, so the three lists stay aligned | not executed | WorldBankData.SeriesAsWrittenMisaligned | WorldBankData.SeriesOf |
