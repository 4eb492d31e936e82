# SmartPlaylists converter core, modelled in Dafny

SmartPlaylists converts "smart playlists" between media players. A smart
playlist is a set of rules (field, operator, operand) plus a match mode, a
limit and a sort order. It is read in one dialect (XBMC v11, XBMC v12 or the
GMMP player), turned into a player-neutral *agnostic* playlist, and written
out in another dialect. Every rule that cannot be carried across is dropped,
and a message about it goes into a shared error log. The GUI module adds a
file comparator that sorts a directory listing by name or by extension.

This project models that core:

| module | file | models |
|---|---|---|
| `Outcomes` | `outcomes.dfy` | `Option`, association tables and their look-ups in both directions, and `Step` (the result of converting one rule: the rule kept or not, and the messages logged) |
| `Text` | `text.dfy` | decimal digits, `Integer.parseInt`, `String.split`, ASCII lower-casing, `String.compareTo` |
| `Time` | `time.dfy` | the duration class `Time` (weeks to seconds) with its setters, `normalize`, `deNormalize`, `getLargestUnit` and `toString`, specified by functions on a `Span` value; the time units with `min` and `parseTimeUnit` |
| `TimeParse` | `time_parse.dfy` | `Time.parse`: the clock format, the words format and the loop that finds the error offset |
| `Dates` | `dates.dfy` | the `yyyy-MM-dd` / `yyyy/MM/dd` date formats |
| `Playlists` | `playlists.dfy` | the agnostic playlist, the XBMC and GMMP playlists as classes with optional fields, their rules, the error log, and the messages as a `Diagnostic` datatype |
| `XbmcCodecs` | `xbmc_codecs.dfy` | the match and direction codecs and the operand formats both XBMC lineages share |
| `XbmcTools` | `xbmc_tools.dfy` | the newer XBMC lineage: three field tables (text, number, date), the rule and playlist conversions in both directions, defaults and overrides |
| `LegacyXbmcTools` | `legacy_xbmc_tools.dfy` | the older XBMC lineage, with one field table and one operator table |
| `Gmmp` | `gmmp.dfy` | the GMMP converter with its integer code tables |
| `XbmcV11`, `XbmcV12` | `xbmc_v11.dfy`, `xbmc_v12.dfy` | the dialect converters: the v12 check that every rule read has a value, and the delegating conversions |
| `ConverterApi` | `converter_api.dfy` | the converter deque reordered by file extension, first-success loading, two-step conversion and the persistent error log |
| `FileComparator`, `FileListSortType` | `file_comparator.dfy`, `file_list_sort_type.dfy` | the file comparator with its option setters, and the four sort kinds with their complements |

Objects whose fields the source updates in place are classes (`Time`,
the playlists, the error log, `ConverterApi`, `FileComparator`). Their
methods are proved against functions of the old state. Each rule conversion
is a function returning a `Step`. Each conversion loop is a method whose
invariants tie the rules and messages it has added so far to those
functions. The round trips, the bijectivity of the code tables and the
ordering laws are proved as lemmas about those functions.

Where the source has a bug (see "## Findings"), the conversion loop and the
comparator class follow the code as written. The corrected definition sits
beside the as-written one, with the intended properties proved about it.

The XBMC and GMMP playlists hold what unmarshalling the file produced. How a
file becomes such an object is a parameter of the model. So are the
converters' `readFromFile` results, as far as `ConverterApi` sees them.

## Model

| member | source | states |
|---|---|---|
| Outcomes.LookupAt | modules/Converter/src/main/java/com/adashrod/smartplaylists/converters/XbmcPlaylistConverterTools.java:149-163 | in a table whose keys and values are each distinct, every entry's key looks up its value and its value looks up its key |
| Outcomes.LookupFound | modules/Converter/src/main/java/com/adashrod/smartplaylists/converters/XbmcPlaylistConverterTools.java:149-163 | a value found for a key belongs to an entry whose key is that key |
| Outcomes.LookupHas | modules/Converter/src/main/java/com/adashrod/smartplaylists/converters/XbmcPlaylistConverterTools.java:149-163 | a key is found exactly when some entry of the table has it |
| Outcomes.KeyOfFound | modules/Converter/src/main/java/com/adashrod/smartplaylists/converters/XbmcPlaylistConverterTools.java:227-228 | the reverse look-up, from a value to its key, finds something exactly when some entry holds the value, and then that entry pairs the value with the key found |
| Outcomes.TableRoundTrip | modules/Converter/src/main/java/com/adashrod/smartplaylists/converters/XbmcPlaylistConverterTools.java:36-50 | in a table whose keys and values are each distinct, the look-ups in the two directions are inverse to each other |
| Outcomes.DisjointLookups | modules/Converter/src/main/java/com/adashrod/smartplaylists/converters/XbmcPlaylistConverterTools.java:81-83 | a key found in one of two tables with disjoint keys is absent from the other |
| Outcomes.Kept | modules/Converter/src/main/java/com/adashrod/smartplaylists/converters/XbmcPlaylistConverterTools.java:197-207 | what a loop over the rules adds to the result: one entry per rule that was not dropped, never more than there are rules |
| Outcomes.KeptPlusDropped | modules/Converter/src/main/java/com/adashrod/smartplaylists/converters/XbmcPlaylistConverterTools.java:197-207 | every rule is either added to the result or dropped |
| Outcomes.OneNotePerDropCounts | modules/Converter/src/main/java/com/adashrod/smartplaylists/converters/XbmcPlaylistConverterTools.java:197-207 | when each dropped rule logs exactly one message, the number of messages is the number of dropped rules |
| Outcomes.KeptElements | modules/Converter/src/main/java/com/adashrod/smartplaylists/converters/XbmcPlaylistConverterTools.java:197-207 | each rule the loop adds comes from some step in the order of the steps |
| Text.NatToDecimal | modules/Converter/src/main/java/com/aaron/smartplaylists/util/Time.java:302-308 | the decimal digits of a natural number: only digits, reading back as the number, and no leading zero |
| Text.ParseInt | modules/Converter/src/main/java/com/aaron/smartplaylists/util/Time.java:119-124 | Integer.parseInt: a number read lies in the 32-bit range and comes from a sign or a digit followed by digits only; an all-digit text in range reads as its value; a text starting with anything else is refused |
| Text.ParseIntToDecimal | modules/Converter/src/main/java/com/aaron/smartplaylists/util/Time.java:302-308 | the decimal text of a number in the 32-bit range reads back as the number |
| Text.Lower | modules/Converter/src/main/java/com/aaron/smartplaylists/util/Time.java:342-344 | String.toLowerCase on ASCII letters: same length, each capital replaced by its small letter, everything else unchanged |
| Text.LowerIdempotent | modules/Converter/src/main/java/com/aaron/smartplaylists/util/Time.java:342-344 | lower-casing twice is lower-casing once |
| Text.Pieces | modules/Converter/src/main/java/com/aaron/smartplaylists/util/Time.java:113 | String.split before trailing empty pieces are dropped: there is always at least one piece |
| Text.DropTrailingEmpty | modules/Converter/src/main/java/com/aaron/smartplaylists/util/Time.java:113 | String.split drops only the empty pieces at the end, and keeps at least the first piece |
| Text.SplitTwo | modules/Converter/src/main/java/com/aaron/smartplaylists/util/Time.java:113 | a text made of two separator-free parts around one separator splits into exactly those two parts |
| Text.SplitThree | modules/Converter/src/main/java/com/aaron/smartplaylists/util/Time.java:113 | likewise for three parts around two separators |
| Text.SplitAtFirst | modules/Converter/src/main/java/com/aaron/smartplaylists/util/Time.java:130 | the first piece of a split is the text before the first separator |
| Text.PiecesSnoc | modules/Converter/src/main/java/com/aaron/smartplaylists/util/Time.java:130 | splitting a text extended by one separator and a tail adds the tail as a last piece |
| Text.LastSegment | modules/SmartPlaylists/src/main/java/com/adashrod/smartplaylists/FileComparator.java:44-56 | the last of the dot-separated parts of a name, when there are two or more; never an empty text |
| Text.LastSegmentAfterDot | modules/SmartPlaylists/src/main/java/com/adashrod/smartplaylists/FileComparator.java:44-56 | a name ending in a dot and a dot-free extension has that extension as its last part |
| Text.LastSegmentNoDot | modules/SmartPlaylists/src/main/java/com/adashrod/smartplaylists/FileComparator.java:44-56 | a name without a dot has no last part to compare by |
| Text.CompareToAntisymmetric | modules/SmartPlaylists/src/main/java/com/adashrod/smartplaylists/FileComparator.java:67-68 | String.compareTo is antisymmetric: swapping the arguments negates the result |
| Text.CompareToZero | modules/SmartPlaylists/src/main/java/com/adashrod/smartplaylists/FileComparator.java:67-68 | String.compareTo is zero exactly for equal texts |
| Text.CompareToTransitive | modules/SmartPlaylists/src/main/java/com/adashrod/smartplaylists/FileComparator.java:67-68 | String.compareTo orders texts transitively |
| Time.Min | modules/Converter/src/main/java/com/aaron/smartplaylists/util/Time.java:346-348 | min of two units is the finer of the two and one of them |
| Time.UnitWordsTable | modules/Converter/src/main/java/com/aaron/smartplaylists/util/Time.java:323-336 | TIME_UNIT_MAP holds each unit's singular and plural word, both mapping to that unit |
| Time.UnitWordsOnly | modules/Converter/src/main/java/com/aaron/smartplaylists/util/Time.java:323-336 | every word in TIME_UNIT_MAP is a singular or plural unit word |
| Time.ParseTimeUnit | modules/Converter/src/main/java/com/aaron/smartplaylists/util/Time.java:342-344 | parseTimeUnit gives the unit exactly when the lower-cased word is one of its words, and null for every other word |
| Time.ParseTimeUnitWords | modules/Converter/src/main/java/com/aaron/smartplaylists/util/Time.java:342-344 | every unit is read back from its singular or plural word, in any letter case |
| Time.SpanOfTotal | modules/Converter/src/main/java/com/aaron/smartplaylists/util/Time.java:33-51 | a Time of n units lasts n times the seconds in that unit |
| Time.CarrySeconds | modules/Converter/src/main/java/com/aaron/smartplaylists/util/Time.java:248-251 | carrying seconds into minutes keeps the total length, leaves the other fields alone and brings non-negative seconds below 60 |
| Time.CarryMinutes | modules/Converter/src/main/java/com/aaron/smartplaylists/util/Time.java:252-255 | carrying minutes into hours keeps the length and brings non-negative minutes below 60 |
| Time.CarryHours | modules/Converter/src/main/java/com/aaron/smartplaylists/util/Time.java:256-259 | carrying hours into days keeps the length and brings non-negative hours below 24 |
| Time.CarryDays | modules/Converter/src/main/java/com/aaron/smartplaylists/util/Time.java:260-263 | carrying days into weeks keeps the length and brings non-negative days below 7 |
| Time.NormalizeSpan | modules/Converter/src/main/java/com/aaron/smartplaylists/util/Time.java:247-265 | normalize keeps the total length, leaves a non-negative Time normal (seconds and minutes below 60, hours below 24, days below 7) and changes nothing in a normal Time |
| Time.FromTotal | modules/Converter/src/main/java/com/aaron/smartplaylists/util/Time.java:247-265 | the normal Time of a number of seconds, by division and remainder, lasts that many seconds |
| Time.NormalUnique | modules/Converter/src/main/java/com/aaron/smartplaylists/util/Time.java:247-265 | two normal Times of the same length are equal |
| Time.NormalizeIsFromTotal | modules/Converter/src/main/java/com/aaron/smartplaylists/util/Time.java:247-265 | normalize agrees with the division-and-remainder reference on every non-negative Time |
| Time.NormalizeIdempotent | modules/Converter/src/main/java/com/aaron/smartplaylists/util/Time.java:247-265 | normalizing twice is normalizing once |
| Time.TimeOfDay | modules/Converter/src/main/java/com/aaron/smartplaylists/util/Time.java:302-308 | without its days and weeks a normal Time lasts its length modulo one day, and is unchanged when shorter than a day |
| Time.DeNormalizeSpan | modules/Converter/src/main/java/com/aaron/smartplaylists/util/Time.java:273-300 | deNormalize keeps the total length, empties every unit coarser than the largest allowed and leaves the finer units alone |
| Time.FinestInUse | modules/Converter/src/main/java/com/aaron/smartplaylists/util/Time.java:212-232 | the finest unit with a positive amount, every finer unit being empty |
| Time.FoldedIntoOneField | modules/Converter/src/main/java/com/aaron/smartplaylists/util/Time.java:233 | after deNormalize down to the finest unit in use, only that unit holds an amount |
| Time.CoarsestFieldOf | modules/Converter/src/main/java/com/aaron/smartplaylists/util/Time.java:234-244 | the scan from weeks down finds the one field holding an amount |
| Time.LargestUnitOf | modules/Converter/src/main/java/com/aaron/smartplaylists/util/Time.java:212-245 | getLargestUnit returns a unit no coarser than the cap, and that amount of that unit lasts exactly as long as the Time |
| Time.LargestUnitOfNormal | modules/Converter/src/main/java/com/aaron/smartplaylists/util/Time.java:212-245 | for a normal non-empty Time the unit is the finer of the cap and the finest unit in use |
| Time.LargestUnitRepeat | modules/Converter/src/main/java/com/aaron/smartplaylists/util/Time.java:233-245 | calling getLargestUnit again with the same cap changes nothing and gives the same answer |
| Time.LargestUnitWeeksExample | modules/Converter/src/test/java/unit/com/aaron/smartplaylists/TimeTests.java:20-31 | two weeks are 2 weeks, 14 days or 336 hours as the cap is weeks, days or hours |
| Time.LargestUnitHoursExample | modules/Converter/src/test/java/unit/com/aaron/smartplaylists/TimeTests.java:33-45 | 3 days 5 hours are 77 hours |
| Time.Pad2 | modules/Converter/src/main/java/com/aaron/smartplaylists/util/Time.java:305-307 | a two-digit field of the clock text: at least two digits, reading back as the number |
| Time.Time.constructor | modules/Converter/src/main/java/com/aaron/smartplaylists/util/Time.java:22-24 | a new Time is zero |
| Time.Time.FromClock | modules/Converter/src/main/java/com/aaron/smartplaylists/util/Time.java:26-31 | a Time from hours, minutes and seconds is that length, normalized |
| Time.Time.FromAmount | modules/Converter/src/main/java/com/aaron/smartplaylists/util/Time.java:33-51 | a Time from an amount and a unit is that many units, normalized; a missing unit gives zero |
| Time.Time.SetWeeks | modules/Converter/src/main/java/com/aaron/smartplaylists/util/Time.java:57-62 | a negative amount is ignored; otherwise the weeks are set and nothing is normalized |
| Time.Time.SetDays | modules/Converter/src/main/java/com/aaron/smartplaylists/util/Time.java:68-74 | a negative amount is ignored; otherwise the days are set and the Time is normalized; the Time itself is returned |
| Time.Time.SetHours | modules/Converter/src/main/java/com/aaron/smartplaylists/util/Time.java:80-86 | as for days, on the hours |
| Time.Time.SetMinutes | modules/Converter/src/main/java/com/aaron/smartplaylists/util/Time.java:92-98 | as for days, on the minutes |
| Time.Time.SetSeconds | modules/Converter/src/main/java/com/aaron/smartplaylists/util/Time.java:104-110 | as for days, on the seconds |
| Time.Time.Normalize | modules/Converter/src/main/java/com/aaron/smartplaylists/util/Time.java:247-265 | the fields become the normalized span of the old fields |
| Time.Time.DeNormalize | modules/Converter/src/main/java/com/aaron/smartplaylists/util/Time.java:273-300 | the fields become the span folded into the largest allowed unit |
| Time.Time.GetLargestUnit | modules/Converter/src/main/java/com/aaron/smartplaylists/util/Time.java:212-245 | the returned pair is the largest unit of the old fields, and the fields are folded into that unit |
| Time.Time.ToString | modules/Converter/src/main/java/com/aaron/smartplaylists/util/Time.java:302-308 | toString normalizes the Time and gives its clock text |
| TimeParse.ClockGroups | modules/Converter/src/main/java/com/aaron/smartplaylists/util/Time.java:113 | a clock text is two or three groups of one or two digits |
| TimeParse.ClockSplit | modules/Converter/src/main/java/com/aaron/smartplaylists/util/Time.java:113 | splitting a clock text at the colons gives exactly its digit groups |
| TimeParse.ParseAsClock | modules/Converter/src/main/java/com/aaron/smartplaylists/util/Time.java:112-127 | parseAsClock reads seconds, minutes and hours from the right and gives that span normalized |
| TimeParse.WordsSplit | modules/Converter/src/main/java/com/aaron/smartplaylists/util/Time.java:129-132 | a text of the word format always has a first piece, and a second one when the first is a number |
| TimeParse.ReadWords | modules/Converter/src/main/java/com/aaron/smartplaylists/util/Time.java:129-132 | parseAsWords never reports a malformed text: it gives a span or an unreadable number |
| TimeParse.ParseWordsBadNumber | modules/Converter/src/main/java/com/aaron/smartplaylists/util/Time.java:129-132 | white space before the number, or none between number and word, leaves a first piece that is not a number |
| TimeParse.ParseWordsOneSpace | modules/Converter/src/main/java/com/aaron/smartplaylists/util/Time.java:129-132 | a number and its unit one white-space character apart are read as that many units, normalized |
| TimeParse.ParseWordsWideSpace | modules/Converter/src/main/java/com/aaron/smartplaylists/util/Time.java:129-132 | more than one white-space character after the number leaves the unit unknown, which makes the Time zero |
| TimeParse.ScanFrom | modules/Converter/src/main/java/com/aaron/smartplaylists/util/Time.java:147-177 | the error offset is -1 or a position in the text, and every character before it is a digit or a colon |
| TimeParse.WordErrorOffset | modules/Converter/src/main/java/com/aaron/smartplaylists/util/Time.java:178-186 | the error offset of a text without a colon is 0 or the start of a trailing run of word characters after a number |
| TimeParse.Parse | modules/Converter/src/main/java/com/aaron/smartplaylists/util/Time.java:141-189 | the loop of parse finds the offset the scan defines: parse gives the clock reading, the word reading or that error |
| TimeParse.MalformedOffset | modules/Converter/src/main/java/com/aaron/smartplaylists/util/Time.java:141-189 | a ParseException's offset is -1 or a position in the text, and the text before it is digits and colons |
| TimeParse.ClockRoundTrip | modules/Converter/src/main/java/com/aaron/smartplaylists/util/Time.java:302-308 | the clock text of a normal Time shorter than a day parses back to that Time |
| TimeParse.WordsRoundTrip | modules/Converter/src/main/java/com/aaron/smartplaylists/util/Time.java:129-132 | a number, one space and a unit word parse back as that many units |
| TimeParse.UnitWordsDistinct | modules/Converter/src/main/java/com/aaron/smartplaylists/util/Time.java:323-336 | no unit word is the word of another unit |
| TimeParse.ClockParsed | modules/Converter/src/main/java/com/aaron/smartplaylists/util/Time.java:141-146 | any clock text parses as a clock |
| TimeParse.ParseOneMinute | modules/Converter/src/test/java/unit/com/aaron/smartplaylists/TimeTests.java:58-63 | "1:00" is one minute |
| TimeParse.ParseHoursMinutesSeconds | modules/Converter/src/test/java/unit/com/aaron/smartplaylists/TimeTests.java:65-70 | "2:34:56" is 2 hours, 34 minutes and 56 seconds |
| TimeParse.ParseOneWeek | modules/Converter/src/test/java/unit/com/aaron/smartplaylists/TimeTests.java:72-77 | "1 week" is one week |
| TimeParse.ParseTooManyHourDigits | modules/Converter/src/test/java/unit/com/aaron/smartplaylists/TimeTests.java:81-83 | "100:12:45" fails at offset 2 |
| TimeParse.ParseTooManyMinuteDigits | modules/Converter/src/test/java/unit/com/aaron/smartplaylists/TimeTests.java:86-88 | "1:123:45" fails at offset 4 |
| TimeParse.ParseTooManySecondDigits | modules/Converter/src/test/java/unit/com/aaron/smartplaylists/TimeTests.java:91-93 | "1:13:450" fails at offset 7 |
| TimeParse.UnknownWord | modules/Converter/src/main/java/com/aaron/smartplaylists/util/Time.java:178-186 | a number followed by an unknown word fails at the start of the word |
| TimeParse.ParseMisspelledDays | modules/Converter/src/test/java/unit/com/aaron/smartplaylists/TimeTests.java:96-98 | "2 daays" fails at offset 2 |
| TimeParse.ParseMisspelledHours | modules/Converter/src/test/java/unit/com/aaron/smartplaylists/TimeTests.java:101-103 | "3 hoors" fails at offset 2 |
| TimeParse.ParseMonths | modules/Converter/src/test/java/unit/com/aaron/smartplaylists/TimeTests.java:106-108 | "4 months" fails at offset 2 |
| Dates.Padded | modules/Converter/src/main/java/com/adashrod/smartplaylists/converters/XbmcPlaylistConverterTools.java:51-52 | a date field written with zeros to its width reads back as the number |
| Dates.Parse | modules/Converter/src/main/java/com/adashrod/smartplaylists/converters/XbmcPlaylistConverterTools.java:169 | a failed parse reports a position in the text; a successful one starts with a digit |
| Dates.ParseFields | modules/Converter/src/main/java/com/adashrod/smartplaylists/converters/XbmcPlaylistConverterTools.java:169 | three digit runs joined by a non-digit separator parse as those numbers |
| Dates.ParseFormat | modules/Converter/src/main/java/com/adashrod/smartplaylists/converters/XbmcPlaylistConverterTools.java:257 | a formatted date parses back to the same date, for any non-digit separator |
| Dates.ParseWrongSeparator | modules/Converter/src/main/java/com/aaron/smartplaylists/converters/GmmpPlaylistConverter.java:179-183 | a text whose year is followed by another separator fails just after the year |
| XbmcCodecs.CodecsRoundTrip | modules/Converter/src/main/java/com/adashrod/smartplaylists/converters/XbmcPlaylistConverterTools.java:113-127 | the match and order codecs are inverse: a flag read back from its text is the flag, and a text reads as true exactly when it is the text of true |
| XbmcCodecs.DateRoundTrip | modules/Converter/src/main/java/com/aaron/smartplaylists/converters/XbmcPlaylistConverterTools.java:202-203 | a date written in yyyy-MM-dd parses back to the date |
| XbmcCodecs.LastPlayedRoundTrip | modules/Converter/src/main/java/com/aaron/smartplaylists/converters/XbmcPlaylistConverterTools.java:194-196 | a last-played period written as an amount of its largest unit parses back as a Time of the same length |
| XbmcCodecs.DurationRoundTrip | modules/Converter/src/main/java/com/aaron/smartplaylists/converters/XbmcPlaylistConverterTools.java:197-198 | a duration written as a clock parses back as its time of day, the whole Time when shorter than a day |
| XbmcCodecs.MentionsDateWithin | modules/Converter/src/main/java/com/aaron/smartplaylists/converters/XbmcPlaylistConverterTools.java:133-134 | a message containing "date" mentions a date |
| XbmcCodecs.DateFailureHint | modules/Converter/src/main/java/com/aaron/smartplaylists/converters/XbmcPlaylistConverterTools.java:133-134 | a failed date parse is logged with the date-format hint |
| XbmcTools.FieldTableOneToOne | modules/Converter/src/main/java/com/adashrod/smartplaylists/converters/XbmcPlaylistConverterTools.java:66-80 | each field table maps distinct names to distinct fields |
| XbmcTools.OperatorTableOneToOne | modules/Converter/src/main/java/com/adashrod/smartplaylists/converters/XbmcPlaylistConverterTools.java:84-97 | each operator table maps distinct names to distinct operators |
| XbmcTools.FieldTablesDisjoint | modules/Converter/src/main/java/com/adashrod/smartplaylists/converters/XbmcPlaylistConverterTools.java:66-80 | no field name is in two of the string, number and date tables |
| XbmcTools.CategoryOfName | modules/Converter/src/main/java/com/adashrod/smartplaylists/converters/XbmcPlaylistConverterTools.java:149-174 | the table a rule's field name is found in, and none when it is in no table |
| XbmcTools.CategoryOfField | modules/Converter/src/main/java/com/adashrod/smartplaylists/converters/XbmcPlaylistConverterTools.java:226-236 | the table a field is written through, and none when it is in no table |
| XbmcTools.NameInOneCategory | modules/Converter/src/main/java/com/adashrod/smartplaylists/converters/XbmcPlaylistConverterTools.java:81-83 | a field name is in exactly one table of FIELD_MAPS |
| XbmcTools.FieldInOneCategory | modules/Converter/src/main/java/com/adashrod/smartplaylists/converters/XbmcPlaylistConverterTools.java:81-83 | a field is in exactly one table of FIELD_MAPS |
| XbmcTools.FieldRoundTrip | modules/Converter/src/main/java/com/adashrod/smartplaylists/converters/XbmcPlaylistConverterTools.java:61-111 | a field's name leads back to the field, through its own table and through all of them |
| XbmcTools.OperatorRoundTrip | modules/Converter/src/main/java/com/adashrod/smartplaylists/converters/XbmcPlaylistConverterTools.java:84-97 | an operator's name leads back to the operator |
| XbmcTools.FieldNamesRoundTrip | modules/Converter/src/main/java/com/adashrod/smartplaylists/converters/XbmcPlaylistConverterTools.java:316-387 | the searches of FIELD_MAPS in the two directions are inverse |
| XbmcTools.PlaylistTypeRoundTrip | modules/Converter/src/main/java/com/adashrod/smartplaylists/converters/XbmcPlaylistConverterTools.java:62-65 | every playlist type has a name, and the name leads back to the type |
| XbmcTools.ParsePeriodAccepts | modules/Converter/src/main/java/com/adashrod/smartplaylists/converters/XbmcPlaylistConverterTools.java:129-135 | parseXbmcTimePeriod accepts exactly the clock texts and then reads them as Time.parse does |
| XbmcTools.FormatPeriodClock | modules/Converter/src/main/java/com/adashrod/smartplaylists/converters/XbmcPlaylistConverterTools.java:137-143 | formatXbmcTimePeriod writes a duration shorter than a day as its clock text |
| XbmcTools.PeriodRoundTrip | modules/Converter/src/main/java/com/adashrod/smartplaylists/converters/XbmcPlaylistConverterTools.java:129-143 | a duration shorter than a day, formatted and parsed back, is the duration normalized |
| XbmcTools.DecodeIn | modules/Converter/src/main/java/com/adashrod/smartplaylists/converters/XbmcPlaylistConverterTools.java:149-181 | decoding in a field's table drops the rule with one message, or keeps it with none |
| XbmcTools.DecodeRule | modules/Converter/src/main/java/com/adashrod/smartplaylists/converters/XbmcPlaylistConverterTools.java:145-183 | convertRule to the agnostic playlist: a dropped rule logs exactly one message and a kept rule none |
| XbmcTools.PeriodRead | modules/Converter/src/main/java/com/adashrod/smartplaylists/converters/XbmcPlaylistConverterTools.java:153-160 | a period operand that does not parse drops the rule with one message; one that parses keeps it with none |
| XbmcTools.DateRead | modules/Converter/src/main/java/com/adashrod/smartplaylists/converters/XbmcPlaylistConverterTools.java:161-170 | a date operand that does not parse drops the rule with one message; one that parses keeps it with none |
| XbmcTools.DecodeRuleNames | modules/Converter/src/main/java/com/adashrod/smartplaylists/converters/XbmcPlaylistConverterTools.java:145-183 | an unknown field name is logged as such; a kept rule has the field and operator its names stand for |
| XbmcTools.DecodeSteps | modules/Converter/src/main/java/com/adashrod/smartplaylists/converters/XbmcPlaylistConverterTools.java:197-207 | the loop converts each rule in turn |
| XbmcTools.SearchFieldMaps | modules/Converter/src/main/java/com/adashrod/smartplaylists/converters/XbmcPlaylistConverterTools.java:366-372 | the loop over FIELD_MAPS finds the field the sort key names, or none |
| XbmcTools.SetAgnosticDefaults | modules/Converter/src/main/java/com/adashrod/smartplaylists/converters/XbmcPlaylistConverterTools.java:346-353 | the agnostic playlist gets the default match, limit and order |
| XbmcTools.OverrideFromXbmc | modules/Converter/src/main/java/com/adashrod/smartplaylists/converters/XbmcPlaylistConverterTools.java:361-387 | the settings the XBMC playlist has replace the defaults; an unknown sort key is logged |
| XbmcTools.ReadSettings | modules/Converter/src/main/java/com/adashrod/smartplaylists/converters/XbmcPlaylistConverterTools.java:185-195 | a new agnostic playlist holds the converted settings and no rule yet |
| XbmcTools.AddDecodedRules | modules/Converter/src/main/java/com/adashrod/smartplaylists/converters/XbmcPlaylistConverterTools.java:197-207 | the loop appends every kept rule in order and logs every message in order |
| XbmcTools.ToAgnostic | modules/Converter/src/main/java/com/adashrod/smartplaylists/converters/XbmcPlaylistConverterTools.java:185-210 | the whole conversion to the agnostic playlist: the decoded settings and rules, with all their messages logged |
| XbmcTools.DecodeLogsEachDroppedRule | modules/Converter/src/main/java/com/adashrod/smartplaylists/converters/XbmcPlaylistConverterTools.java:197-207 | one message per dropped rule, and each kept rule appears in order |
| XbmcTools.DecodedSettings | modules/Converter/src/main/java/com/adashrod/smartplaylists/converters/XbmcPlaylistConverterTools.java:185-210 | the decoded match, limit and order: ascending unless the direction is descending, the sort key when it names a field other than the playlist, title otherwise, and one message at most |
| XbmcTools.EncodeOperand | modules/Converter/src/main/java/com/adashrod/smartplaylists/converters/XbmcPlaylistConverterTools.java:241-261 | the operand is written for text and dates, and for periods only on last-played and duration; otherwise the rule is dropped with one message |
| XbmcTools.EncodeRuleAsWritten | modules/Converter/src/main/java/com/adashrod/smartplaylists/converters/XbmcPlaylistConverterTools.java:212-264 | convertRule from the agnostic playlist as written: a dropped rule logs exactly one message, and a rule it writes is a text-field rule written exactly as the corrected encoder writes it |
| XbmcTools.AsWrittenDropsNumberAndDateRules | modules/Converter/src/main/java/com/adashrod/smartplaylists/converters/XbmcPlaylistConverterTools.java:226-239 | as written, every rule on a number or date field is dropped because no operator is set for it |
| XbmcTools.AsWrittenDropsYearRule | modules/Converter/src/main/java/com/adashrod/smartplaylists/converters/XbmcPlaylistConverterTools.java:226-239 | "year is 1999" is dropped as written, while the corrected encoder writes it and reads it back |
| XbmcTools.EncodeRule | modules/Converter/src/main/java/com/adashrod/smartplaylists/converters/XbmcPlaylistConverterTools.java:212-264 | convertRule from the agnostic playlist, corrected: one message for a dropped rule, and a kept rule has its operand |
| XbmcTools.EncodeSteps | modules/Converter/src/main/java/com/adashrod/smartplaylists/converters/XbmcPlaylistConverterTools.java:285-291 | the loop converts each rule in turn with convertRule as written |
| XbmcTools.EncodeStepsOnTextRules | modules/Converter/src/main/java/com/adashrod/smartplaylists/converters/XbmcPlaylistConverterTools.java:285-291 | on rules of no number or date field, the loop as written converts each rule as the corrected convertRule does |
| XbmcTools.SearchFieldMapsInverse | modules/Converter/src/main/java/com/adashrod/smartplaylists/converters/XbmcPlaylistConverterTools.java:321-327 | the loop over FIELD_MAPS finds the name of the field, or none |
| XbmcTools.NamedInNoTable | modules/Converter/src/main/java/com/adashrod/smartplaylists/converters/XbmcPlaylistConverterTools.java:321-327 | a field in none of the tables has no name |
| XbmcTools.SetXbmcDefaults | modules/Converter/src/main/java/com/adashrod/smartplaylists/converters/XbmcPlaylistConverterTools.java:300-308 | the XBMC playlist gets the default match and order |
| XbmcTools.OverrideFromAgnostic | modules/Converter/src/main/java/com/adashrod/smartplaylists/converters/XbmcPlaylistConverterTools.java:316-340 | the agnostic settings replace the defaults; an order key without a name is logged |
| XbmcTools.WriteSettings | modules/Converter/src/main/java/com/adashrod/smartplaylists/converters/XbmcPlaylistConverterTools.java:266-283 | a new XBMC playlist holds the converted settings and no rule yet |
| XbmcTools.AddEncodedRules | modules/Converter/src/main/java/com/adashrod/smartplaylists/converters/XbmcPlaylistConverterTools.java:285-291 | the loop appends every rule convertRule as written keeps, in order, and logs every message in order |
| XbmcTools.FromAgnostic | modules/Converter/src/main/java/com/adashrod/smartplaylists/converters/XbmcPlaylistConverterTools.java:266-294 | the whole conversion from the agnostic playlist, with convertRule as written, and all its messages logged |
| XbmcTools.EncodeLogsEachDroppedRule | modules/Converter/src/main/java/com/adashrod/smartplaylists/converters/XbmcPlaylistConverterTools.java:285-291 | one message per rule that is not written |
| XbmcTools.EncodedIsReadable | modules/Converter/src/main/java/com/adashrod/smartplaylists/converters/XbmcPlaylistConverterTools.java:145-183 | every rule convert writes can be read back without a crash |
| XbmcTools.OrderRoundTrip | modules/Converter/src/main/java/com/adashrod/smartplaylists/converters/XbmcPlaylistConverterTools.java:316-387 | an order written and read back is the same order, with title standing in for a key that has no name |
| XbmcTools.SettingsRoundTrip | modules/Converter/src/main/java/com/adashrod/smartplaylists/converters/XbmcPlaylistConverterTools.java:266-294 | writing and reading back keeps the type, name and limit, and the match flag as true or false |
| XbmcTools.NamedRule | modules/Converter/src/main/java/com/adashrod/smartplaylists/converters/XbmcPlaylistConverterTools.java:212-264 | the corrected encoder writes a rule with the names its field and operator have in their tables, and those names read back as the field and operator |
| XbmcTools.TextRuleRoundTrip | modules/Converter/src/main/java/com/adashrod/smartplaylists/converters/XbmcPlaylistConverterTools.java:145-264 | a text rule written by the corrected encoder and read back is the same rule |
| XbmcTools.DurationRuleWritten | modules/Converter/src/main/java/com/adashrod/smartplaylists/converters/XbmcPlaylistConverterTools.java:251-252 | the corrected encoder writes a duration rule as "time" with its clock text |
| XbmcTools.DurationRuleRead | modules/Converter/src/main/java/com/adashrod/smartplaylists/converters/XbmcPlaylistConverterTools.java:153-160 | "time" with a clock text reads as a duration rule |
| XbmcTools.DurationRuleRoundTrip | modules/Converter/src/main/java/com/adashrod/smartplaylists/converters/XbmcPlaylistConverterTools.java:145-264 | with the corrected encoder, a duration shorter than a day comes back normalized |
| XbmcTools.LastPlayedRuleRoundTrip | modules/Converter/src/main/java/com/adashrod/smartplaylists/converters/XbmcPlaylistConverterTools.java:145-264 | with the corrected encoder, a last-played period comes back with the same length |
| XbmcTools.DateRuleRoundTrip | modules/Converter/src/main/java/com/adashrod/smartplaylists/converters/XbmcPlaylistConverterTools.java:145-264 | with the corrected encoder, a before/after date rule comes back unchanged |
| LegacyXbmcTools.FieldTableOneToOne | modules/Converter/src/main/java/com/aaron/smartplaylists/converters/XbmcPlaylistConverterTools.java:39-53 | FIELD_MAP maps distinct names to distinct fields |
| LegacyXbmcTools.OperatorTableOneToOne | modules/Converter/src/main/java/com/aaron/smartplaylists/converters/XbmcPlaylistConverterTools.java:54-65 | OPERATOR_MAP maps distinct names to distinct operators |
| LegacyXbmcTools.FieldEntry | modules/Converter/src/main/java/com/aaron/smartplaylists/converters/XbmcPlaylistConverterTools.java:39-53 | every entry of FIELD_MAP is found from either side |
| LegacyXbmcTools.OperatorEntry | modules/Converter/src/main/java/com/aaron/smartplaylists/converters/XbmcPlaylistConverterTools.java:54-65 | every entry of OPERATOR_MAP is found from either side |
| LegacyXbmcTools.FieldNameRoundTrip | modules/Converter/src/main/java/com/aaron/smartplaylists/converters/XbmcPlaylistConverterTools.java:39-53 | a field's name leads back to the field, and exactly disc number, date added and random have no name |
| LegacyXbmcTools.FieldByNameRoundTrip | modules/Converter/src/main/java/com/aaron/smartplaylists/converters/XbmcPlaylistConverterTools.java:39-53 | a known field name leads back to itself |
| LegacyXbmcTools.OperatorNameRoundTrip | modules/Converter/src/main/java/com/aaron/smartplaylists/converters/XbmcPlaylistConverterTools.java:54-65 | an operator's name leads back to it, and exactly the two or-equal operators have no name |
| LegacyXbmcTools.OperatorByNameRoundTrip | modules/Converter/src/main/java/com/aaron/smartplaylists/converters/XbmcPlaylistConverterTools.java:54-65 | a known operator name leads back to itself |
| LegacyXbmcTools.DecodeRule | modules/Converter/src/main/java/com/aaron/smartplaylists/converters/XbmcPlaylistConverterTools.java:90-121 | convertRule to the agnostic playlist: a dropped rule logs exactly one message, a kept rule none |
| LegacyXbmcTools.DecodeRuleNames | modules/Converter/src/main/java/com/aaron/smartplaylists/converters/XbmcPlaylistConverterTools.java:90-103 | an unknown field or operator name is logged as such; a kept rule has the field and operator its names stand for |
| LegacyXbmcTools.DecodeSteps | modules/Converter/src/main/java/com/aaron/smartplaylists/converters/XbmcPlaylistConverterTools.java:129-140 | the loop converts each rule in turn |
| LegacyXbmcTools.ToAgnostic | modules/Converter/src/main/java/com/aaron/smartplaylists/converters/XbmcPlaylistConverterTools.java:123-168 | the whole conversion to the agnostic playlist: settings, every kept rule in order, every message logged |
| LegacyXbmcTools.DecodeLogsEachDroppedRule | modules/Converter/src/main/java/com/aaron/smartplaylists/converters/XbmcPlaylistConverterTools.java:129-140 | one message per dropped rule, and each kept rule appears in order |
| LegacyXbmcTools.EncodeRule | modules/Converter/src/main/java/com/aaron/smartplaylists/converters/XbmcPlaylistConverterTools.java:170-209 | convertRule from the agnostic playlist: the names from the maps, and the rule dropped with one message exactly when it has a period on a field other than last-played and duration |
| LegacyXbmcTools.EncodeSteps | modules/Converter/src/main/java/com/aaron/smartplaylists/converters/XbmcPlaylistConverterTools.java:230-237 | the loop converts each rule in turn |
| LegacyXbmcTools.FromAgnostic | modules/Converter/src/main/java/com/aaron/smartplaylists/converters/XbmcPlaylistConverterTools.java:211-246 | the whole conversion from the agnostic playlist, every message logged |
| LegacyXbmcTools.EncodeLogsEachDroppedRule | modules/Converter/src/main/java/com/aaron/smartplaylists/converters/XbmcPlaylistConverterTools.java:230-237 | one message per rule that is not written |
| LegacyXbmcTools.EncodedIsReadable | modules/Converter/src/main/java/com/aaron/smartplaylists/converters/XbmcPlaylistConverterTools.java:90-121 | every rule written can be read back without a crash |
| LegacyXbmcTools.DecodeTimeRule | modules/Converter/src/main/java/com/aaron/smartplaylists/converters/XbmcPlaylistConverterTools.java:105-116 | a duration rule, or an in-the-last rule on last played, is read with Time.parse |
| LegacyXbmcTools.DecodeDateRule | modules/Converter/src/main/java/com/aaron/smartplaylists/converters/XbmcPlaylistConverterTools.java:105-114 | a before/after rule on last played is read as a date |
| LegacyXbmcTools.SettingsRoundTrip | modules/Converter/src/main/java/com/aaron/smartplaylists/converters/XbmcPlaylistConverterTools.java:123-246 | writing and reading back keeps the name, match, limit and order |
| LegacyXbmcTools.TextRuleRoundTrip | modules/Converter/src/main/java/com/aaron/smartplaylists/converters/XbmcPlaylistConverterTools.java:90-209 | a text rule written and read back is the same rule |
| LegacyXbmcTools.DurationRuleRoundTrip | modules/Converter/src/main/java/com/aaron/smartplaylists/converters/XbmcPlaylistConverterTools.java:90-209 | a duration comes back as its time of day, normalized |
| LegacyXbmcTools.LastPlayedRuleRoundTrip | modules/Converter/src/main/java/com/aaron/smartplaylists/converters/XbmcPlaylistConverterTools.java:90-209 | a last-played period comes back with the same length |
| LegacyXbmcTools.DateRuleRoundTrip | modules/Converter/src/main/java/com/aaron/smartplaylists/converters/XbmcPlaylistConverterTools.java:90-209 | a before/after date rule comes back unchanged |
| Gmmp.TablesOneToOne | modules/Converter/src/main/java/com/aaron/smartplaylists/converters/GmmpPlaylistConverter.java:61-121 | every code table maps distinct codes to distinct values |
| Gmmp.OrderTableOneToOne | modules/Converter/src/main/java/com/aaron/smartplaylists/converters/GmmpPlaylistConverter.java:93-107 | the order table maps distinct codes to distinct sort keys |
| Gmmp.UnitCodes | modules/Converter/src/main/java/com/aaron/smartplaylists/converters/GmmpPlaylistConverter.java:109-113 | the unit table holds codes -1 to 3 in order, -1 standing for no unit and 0 to 3 for seconds to days by rank |
| Gmmp.FieldTablesDisjoint | modules/Converter/src/main/java/com/aaron/smartplaylists/converters/GmmpPlaylistConverter.java:62-75 | no field code is in two of the string, number and date tables |
| Gmmp.FieldCodes | modules/Converter/src/main/java/com/aaron/smartplaylists/converters/GmmpPlaylistConverter.java:62-75 | the string fields have codes 0 to 5, the number fields 6 to 9 and 12 to 13, the date fields 10 and 11 |
| Gmmp.FieldsWithCodes | modules/Converter/src/main/java/com/aaron/smartplaylists/converters/GmmpPlaylistConverter.java:62-75 | every field has a code except random, path, comment and playlist |
| Gmmp.CategoryOfCode | modules/Converter/src/main/java/com/aaron/smartplaylists/converters/GmmpPlaylistConverter.java:153-199 | the table a field code is in, by its range |
| Gmmp.CategoryOfField | modules/Converter/src/main/java/com/aaron/smartplaylists/converters/GmmpPlaylistConverter.java:226-238 | the table a field is written through; none exactly for random, path, comment and playlist |
| Gmmp.CodeInOneCategory | modules/Converter/src/main/java/com/aaron/smartplaylists/converters/GmmpPlaylistConverter.java:61-121 | a field code is in exactly one table |
| Gmmp.FieldInOneCategory | modules/Converter/src/main/java/com/aaron/smartplaylists/converters/GmmpPlaylistConverter.java:61-121 | a field is in exactly one table |
| Gmmp.CodesRoundTrip | modules/Converter/src/main/java/com/aaron/smartplaylists/converters/GmmpPlaylistConverter.java:61-121 | a field's and an operator's codes lead back to them |
| Gmmp.UnitByCode | modules/Converter/src/main/java/com/aaron/smartplaylists/converters/GmmpPlaylistConverter.java:109-113 | the time unit codes 0 to 3 are seconds to days, by rank; every other code has no unit |
| Gmmp.UnitCode | modules/Converter/src/main/java/com/aaron/smartplaylists/converters/GmmpPlaylistConverter.java:109-113 | every unit but weeks has a code |
| Gmmp.UnitRoundTrip | modules/Converter/src/main/java/com/aaron/smartplaylists/converters/GmmpPlaylistConverter.java:109-113 | a unit's code leads back to the unit |
| Gmmp.PeriodRead | modules/Converter/src/main/java/com/aaron/smartplaylists/converters/GmmpPlaylistConverter.java:161-170 | a period is read exactly for a non-negative amount and a unit code from 0 to 3; otherwise one message is logged |
| Gmmp.DecodeRule | modules/Converter/src/main/java/com/aaron/smartplaylists/converters/GmmpPlaylistConverter.java:151-206 | a dropped rule logs one or two messages |
| Gmmp.DecodeRuleOutcome | modules/Converter/src/main/java/com/aaron/smartplaylists/converters/GmmpPlaylistConverter.java:151-206 | an unknown field code logs both the invalid field and the invalid combination; otherwise the rule is kept exactly when the operator code is in the field's table and any date parses, with the field and operator the codes stand for |
| Gmmp.PeriodRuleKept | modules/Converter/src/main/java/com/aaron/smartplaylists/converters/GmmpPlaylistConverter.java:158-195 | a period rule is kept; a negative amount or an unknown unit code leaves it without operand and logs one message; otherwise its operand is that amount of that unit |
| Gmmp.DecodeSteps | modules/Converter/src/main/java/com/aaron/smartplaylists/converters/GmmpPlaylistConverter.java:151-206 | the loop converts each rule in turn |
| Gmmp.SetAgnosticDefaults | modules/Converter/src/main/java/com/aaron/smartplaylists/converters/GmmpPlaylistConverter.java:305-312 | the agnostic playlist gets the default match, limit and order |
| Gmmp.OverrideFromGmmp | modules/Converter/src/main/java/com/aaron/smartplaylists/converters/GmmpPlaylistConverter.java:320-338 | the GMMP settings replace the defaults; an order code outside the table is logged |
| Gmmp.ReadSettings | modules/Converter/src/main/java/com/aaron/smartplaylists/converters/GmmpPlaylistConverter.java:142-150 | a new agnostic playlist holds the converted settings and no rule yet |
| Gmmp.AddDecodedRules | modules/Converter/src/main/java/com/aaron/smartplaylists/converters/GmmpPlaylistConverter.java:151-206 | the loop appends every kept rule in order and logs every message in order |
| Gmmp.ToAgnostic | modules/Converter/src/main/java/com/aaron/smartplaylists/converters/GmmpPlaylistConverter.java:142-209 | the whole conversion to the agnostic playlist, with all its messages logged |
| Gmmp.DecodeLogsEachDroppedRule | modules/Converter/src/main/java/com/aaron/smartplaylists/converters/GmmpPlaylistConverter.java:151-206 | at least one message per dropped rule, and each kept rule appears in order |
| Gmmp.DecodedSettings | modules/Converter/src/main/java/com/aaron/smartplaylists/converters/GmmpPlaylistConverter.java:142-209 | the decoded type is music, the order is the code's key or the default key, and at most one message is logged |
| Gmmp.EncodeOperand | modules/Converter/src/main/java/com/aaron/smartplaylists/converters/GmmpPlaylistConverter.java:239-256 | a period is written with a unit code from the table; other operands with no unit |
| Gmmp.EncodeRule | modules/Converter/src/main/java/com/aaron/smartplaylists/converters/GmmpPlaylistConverter.java:216-261 | convertRule from the agnostic playlist: version 1, written exactly when the field has a code, otherwise dropped with one message |
| Gmmp.EncodeSteps | modules/Converter/src/main/java/com/aaron/smartplaylists/converters/GmmpPlaylistConverter.java:222-259 | the loop converts each rule in turn |
| Gmmp.SetGmmpDefaults | modules/Converter/src/main/java/com/aaron/smartplaylists/converters/GmmpPlaylistConverter.java:267-273 | the GMMP playlist gets the default settings |
| Gmmp.OverrideFromAgnostic | modules/Converter/src/main/java/com/aaron/smartplaylists/converters/GmmpPlaylistConverter.java:281-299 | the agnostic settings replace the defaults; an order key without a code is logged |
| Gmmp.WriteSettings | modules/Converter/src/main/java/com/aaron/smartplaylists/converters/GmmpPlaylistConverter.java:216-221 | a new GMMP playlist holds the converted settings and no rule yet |
| Gmmp.AddEncodedRules | modules/Converter/src/main/java/com/aaron/smartplaylists/converters/GmmpPlaylistConverter.java:222-259 | the loop appends every written rule in order and logs every message in order |
| Gmmp.FromAgnostic | modules/Converter/src/main/java/com/aaron/smartplaylists/converters/GmmpPlaylistConverter.java:216-261 | the whole conversion from the agnostic playlist, with all its messages logged |
| Gmmp.EncodeLogsEachDroppedRule | modules/Converter/src/main/java/com/aaron/smartplaylists/converters/GmmpPlaylistConverter.java:222-259 | one message per rule that is not written |
| Gmmp.SettingsRoundTrip | modules/Converter/src/main/java/com/aaron/smartplaylists/converters/GmmpPlaylistConverter.java:142-338 | writing and reading back keeps the name and limit, reads the type as music, and keeps the order key when it has a code |
| Gmmp.TextRuleRoundTrip | modules/Converter/src/main/java/com/aaron/smartplaylists/converters/GmmpPlaylistConverter.java:151-261 | a text rule written and read back is the same rule |
| Gmmp.DateRuleRoundTrip | modules/Converter/src/main/java/com/aaron/smartplaylists/converters/GmmpPlaylistConverter.java:174-184 | a before/after date rule comes back unchanged |
| Gmmp.LargestUnitPeriod | modules/Converter/src/main/java/com/aaron/smartplaylists/converters/GmmpPlaylistConverter.java:243-248 | the period in its largest unit up to days, read back as a Time, is the normalized period |
| Gmmp.PeriodReadBack | modules/Converter/src/main/java/com/aaron/smartplaylists/converters/GmmpPlaylistConverter.java:243-248 | a written period reads back as the normalized period with no message |
| Gmmp.PeriodRuleWritten | modules/Converter/src/main/java/com/aaron/smartplaylists/converters/GmmpPlaylistConverter.java:239-258 | a period rule is written with its codes, its amount and its unit code |
| Gmmp.PeriodRuleRead | modules/Converter/src/main/java/com/aaron/smartplaylists/converters/GmmpPlaylistConverter.java:158-195 | such a rule reads back as the normalized period rule |
| Gmmp.PeriodRuleRoundTrip | modules/Converter/src/main/java/com/aaron/smartplaylists/converters/GmmpPlaylistConverter.java:151-261 | a period rule comes back with its period normalized |
| Gmmp.RuleRoundTrip | modules/Converter/src/main/java/com/aaron/smartplaylists/converters/GmmpPlaylistConverter.java:151-261 | every rule of a field with a code comes back as its read-back form, with no message |
| Gmmp.RulesWritten | modules/Converter/src/main/java/com/aaron/smartplaylists/converters/GmmpPlaylistConverter.java:222-259 | rules that each round-trip are all written, with no message, each reading back as its read-back form |
| Gmmp.RulesRead | modules/Converter/src/main/java/com/aaron/smartplaylists/converters/GmmpPlaylistConverter.java:151-206 | written rules that each read back are all kept, in order, with no message |
| Gmmp.RulesRoundTrip | modules/Converter/src/main/java/com/aaron/smartplaylists/converters/GmmpPlaylistConverter.java:142-261 | a list of such rules comes back as their read-back forms, in order, with no message either way |
| XbmcV11.ToAgnostic | modules/Converter/src/main/java/com/aaron/smartplaylists/converters/XbmcV11PlaylistConverter.java:45-48 | the v11 conversion is the shared XBMC conversion |
| XbmcV11.FromAgnostic | modules/Converter/src/main/java/com/aaron/smartplaylists/converters/XbmcV11PlaylistConverter.java:56-60 | the v11 conversion writes a v11 playlist |
| XbmcV12.ReadFromFile | modules/Converter/src/main/java/com/aaron/smartplaylists/converters/XbmcV12PlaylistConverter.java:31-42 | a playlist is read exactly when unmarshalling gave one and every rule has its value, and then it is returned unchanged |
| XbmcV12.ReadRulesAreReadable | modules/Converter/src/main/java/com/aaron/smartplaylists/converters/XbmcV12PlaylistConverter.java:31-42 | a playlist that was read converts without a crash |
| XbmcV12.ToAgnostic | modules/Converter/src/main/java/com/aaron/smartplaylists/converters/XbmcV12PlaylistConverter.java:49-53 | the v12 conversion is the shared XBMC conversion |
| XbmcV12.FromAgnostic | modules/Converter/src/main/java/com/aaron/smartplaylists/converters/XbmcV12PlaylistConverter.java:60-65 | the v12 conversion writes a v12 playlist |
| ConverterApi.ReorderedPermutes | modules/Converter/src/main/java/com/aaron/smartplaylists/api/ConverterApi.java:54-64 | reordering keeps the same three converters |
| ConverterApi.ReorderedFront | modules/Converter/src/main/java/com/aaron/smartplaylists/api/ConverterApi.java:54-64 | an .xsp file puts the two XBMC converters first, v12 before v11; a GMMP file puts the GMMP converter first; any other extension changes nothing |
| ConverterApi.ExtensionOfName | modules/Converter/src/main/java/com/aaron/smartplaylists/api/ConverterApi.java:67-68 | the extension of a file name is the lower-cased text after its last dot, and a name without a dot has none |
| ConverterApi.ConverterApi.constructor | modules/Converter/src/main/java/com/aaron/smartplaylists/api/ConverterApi.java:38-46 | the deque holds v12, v11 and GMMP, and the error log is empty |
| ConverterApi.ConverterApi.FindConverter | modules/Converter/src/main/java/com/aaron/smartplaylists/api/ConverterApi.java:79-85 | nothing exactly for a class the map does not hold (where the source throws); with the map the constructor fills, every class has a converter, the one that reads and writes that class |
| ConverterApi.ConverterApi.ReorderConverterList | modules/Converter/src/main/java/com/aaron/smartplaylists/api/ConverterApi.java:54-64 | the deque is reordered for the extension |
| ConverterApi.ConverterApi.LoadFromFile | modules/Converter/src/main/java/com/aaron/smartplaylists/api/ConverterApi.java:66-77 | the result is what the first converter in the reordered deque that can read the file gives, and nothing exactly when none can |
| ConverterApi.ConverterApi.ToAgnostic | modules/Converter/src/main/java/com/aaron/smartplaylists/api/ConverterApi.java:93-96 | converting to the agnostic playlist uses the converter of the playlist's class and logs its messages |
| ConverterApi.ConverterApi.FromAgnostic | modules/Converter/src/main/java/com/aaron/smartplaylists/api/ConverterApi.java:104-107 | converting from the agnostic playlist gives a playlist of the class asked for and logs its messages |
| ConverterApi.ConverterApi.Convert | modules/Converter/src/main/java/com/aaron/smartplaylists/api/ConverterApi.java:115-118 | a conversion between classes is the decoding followed by the encoding, with both sets of messages logged in that order |
| ConverterApi.ConverterApi.GetErrorLog | modules/Converter/src/main/java/com/aaron/smartplaylists/api/ConverterApi.java:120-122 | the error log itself is returned |
| ConverterApi.ConverterApi.ClearLog | modules/Converter/src/main/java/com/aaron/smartplaylists/api/ConverterApi.java:124-126 | clearing leaves the error log empty |
| Playlists.AgnosticSmartPlaylist.constructor | modules/Converter/src/main/java/com/adashrod/smartplaylists/playlists/AgnosticSmartPlaylist.java:20-22 | a new agnostic playlist has no rules and nothing set |
| Playlists.XbmcSmartPlaylist.constructor | modules/Converter/src/main/java/com/adashrod/smartplaylists/playlists/XbmcV11SmartPlaylist.java:33-35 | a new XBMC playlist has no rules and nothing set |
| Playlists.GmmpSmartPlaylist.constructor | modules/Converter/src/main/java/com/adashrod/smartplaylists/playlists/GmmpSmartPlaylist.java:34-36 | a new GMMP playlist has no rules and nothing set |
| Playlists.ErrorLog.AddAll | modules/Converter/src/main/java/com/adashrod/smartplaylists/converters/XbmcPlaylistConverterTools.java:389-392 | log appends the messages in order |
| Playlists.ErrorLog.Clear | modules/Converter/src/main/java/com/aaron/smartplaylists/api/ConverterApi.java:124-126 | the log becomes empty |
| FileComparator.FileTextOfName | modules/SmartPlaylists/src/main/java/com/adashrod/smartplaylists/FileComparator.java:22-35 | a file is compared by its whole name or by its extension, and a name without a dot has the empty extension |
| FileComparator.DirectoryCompare | modules/SmartPlaylists/src/main/java/com/adashrod/smartplaylists/FileComparator.java:71-81 | a directory comes before a file, and two of a kind are equal |
| FileComparator.UnsetFieldTiesAll | modules/SmartPlaylists/src/main/java/com/adashrod/smartplaylists/FileComparator.java:57-59 | a comparator without a field finds every pair equal |
| FileComparator.DirectoriesApart | modules/SmartPlaylists/src/main/java/com/adashrod/smartplaylists/FileComparator.java:61-66 | a directory-sensitive comparator puts directories before files when ascending and after them when descending |
| FileComparator.TextDecidesOnTie | modules/SmartPlaylists/src/main/java/com/adashrod/smartplaylists/FileComparator.java:37-69 | between two of a kind the texts decide, swapped when descending and lower-cased when case is ignored |
| FileComparator.OrderingAntisymmetric | modules/SmartPlaylists/src/main/java/com/adashrod/smartplaylists/FileComparator.java:37-69 | swapping the two files negates the comparison |
| FileComparator.DescendingReverses | modules/SmartPlaylists/src/main/java/com/adashrod/smartplaylists/FileComparator.java:37-69 | descending compares the files the other way round |
| FileComparator.OrderingTransitive | modules/SmartPlaylists/src/main/java/com/adashrod/smartplaylists/FileComparator.java:37-69 | the comparison orders files transitively |
| FileComparator.OrderingAsWrittenAntisymmetric | modules/SmartPlaylists/src/main/java/com/adashrod/smartplaylists/FileComparator.java:37-69 | compare as written is also negated when the files are swapped, its broken branch being 0 both ways |
| FileComparator.AsWrittenDescendingTies | modules/SmartPlaylists/src/main/java/com/adashrod/smartplaylists/FileComparator.java:67-67 | as written, a descending case-sensitive comparison of two of a kind is always zero |
| FileComparator.AsWrittenElsewhereIntended | modules/SmartPlaylists/src/main/java/com/adashrod/smartplaylists/FileComparator.java:37-69 | every other comparison as written is the intended one |
| FileComparator.AsWrittenTiesDistinctNames | modules/SmartPlaylists/src/main/java/com/adashrod/smartplaylists/FileComparator.java:67-67 | as written "a.mp3" and "b.mp3" compare equal by name descending, while intended they do not |
| FileComparator.FileComparator.constructor | modules/SmartPlaylists/src/main/java/com/adashrod/smartplaylists/FileComparator.java:14-17 | a new comparator has no field and every flag set |
| FileComparator.FileComparator.Name | modules/SmartPlaylists/src/main/java/com/adashrod/smartplaylists/FileComparator.java:22-26 | name() gives a comparator by name |
| FileComparator.FileComparator.Type | modules/SmartPlaylists/src/main/java/com/adashrod/smartplaylists/FileComparator.java:31-35 | type() gives a comparator by extension |
| FileComparator.FileComparator.Compare | modules/SmartPlaylists/src/main/java/com/adashrod/smartplaylists/FileComparator.java:37-69 | compare as written: zero without a field, negated when the files are swapped, and the intended order except in the descending case-sensitive text comparison |
| FileComparator.FileComparator.DirectorySensitive | modules/SmartPlaylists/src/main/java/com/adashrod/smartplaylists/FileComparator.java:88-91 | only the directory flag is set, and the comparator is returned |
| FileComparator.FileComparator.DirectoryInsensitive | modules/SmartPlaylists/src/main/java/com/adashrod/smartplaylists/FileComparator.java:98-101 | only the directory flag is cleared |
| FileComparator.FileComparator.CaseSensitive | modules/SmartPlaylists/src/main/java/com/adashrod/smartplaylists/FileComparator.java:107-110 | only the case flag is set |
| FileComparator.FileComparator.CaseInsensitive | modules/SmartPlaylists/src/main/java/com/adashrod/smartplaylists/FileComparator.java:116-119 | only the case flag is cleared |
| FileComparator.FileComparator.Ascending | modules/SmartPlaylists/src/main/java/com/adashrod/smartplaylists/FileComparator.java:125-128 | only the direction becomes ascending |
| FileComparator.FileComparator.Descending | modules/SmartPlaylists/src/main/java/com/adashrod/smartplaylists/FileComparator.java:134-137 | only the direction becomes descending |
| FileListSortType.NameOrType | modules/SmartPlaylists/src/main/java/com/adashrod/smartplaylists/FileListSortType.java:34-43 | each sort is by name or by type, never both |
| FileListSortType.GetComplement | modules/SmartPlaylists/src/main/java/com/adashrod/smartplaylists/FileListSortType.java:48-50 | the complement sorts by the same field in the other direction |
| FileListSortType.ComplementInvolution | modules/SmartPlaylists/src/main/java/com/adashrod/smartplaylists/FileListSortType.java:21-24 | the complement of the complement is the sort, and no sort is its own complement |
| FileListSortType.ComplementComparatorSortsAsComplement | modules/SmartPlaylists/src/main/java/com/adashrod/smartplaylists/FileListSortType.java:55-57 | the stored comparator sorts by the complement's field and direction, ignoring case and keeping directories apart |
| FileListSortType.ComplementComparatorReverses | modules/SmartPlaylists/src/main/java/com/adashrod/smartplaylists/FileListSortType.java:25-28 | the stored comparator reverses the comparator that goes the sort's own way |
| FileListSortType.NewComplementComparator | modules/SmartPlaylists/src/main/java/com/adashrod/smartplaylists/FileListSortType.java:25-28 | the static initializer builds each stored comparator from its factory and setters |

## Left out

- XML binding and file reading: the JAXB classes, unmarshalling, the lenient event handler of the v11 converter and the `readFromFile` bodies of the v11 and GMMP converters. A read is an `Option` supplied by the caller. `XbmcV12.ReadFromFile` models only the check that every rule has a value.
- `ConverterApi.ConverterApi.LoadFromFile`: when no converter can read the file, the source throws `IllegalArgumentException`. Here the result is `None`.
- The reflective `newInstance` of a playlist class and its failure paths. Each converter makes a fresh playlist object instead.
- The `TimePeriod` and `TimePeriodFormat` classes that the newer XBMC lineage and the GMMP converter use are not part of this model. They are given the grammar of `Time.parse` and the contract of `Time.getLargestUnit`.
- `SimpleDateFormat` is not modelled. A date is a year, month and day. Parsing accepts exactly three digit runs joined by the format's separator; the lenient roll-over of out-of-range months and days is not modelled.
- Crashes outside the error-log design are preconditions of the members involved:
  - `Integer.parseInt` on a non-numeric GMMP value;
  - a null date value in a GMMP rule;
  - a null `Ascending` in a GMMP playlist;
  - an operator that has no GMMP code;
  - a null order or match flag in the older XBMC lineage;
  - a null operand.
- The GMMP "horribly wrong" branch is unreachable, because the operand type here is closed.
- 32-bit overflow in `Time`: fields are unbounded integers.
- Exceptions are not modelled as values; the error-log message each `catch` writes is. Message wording is the `Diagnostic` datatype. log4j output is not modelled.
- `getLargestUnit` mutates the `Time` it is called on; the converters call it on a rule's operand. Operands here are `Span` values, so converting a playlist does not change the duration inside the agnostic playlist it reads. `Time.Time.GetLargestUnit` does model the mutation.
- The iteration order of the `HashSet` `FIELD_MAPS` in the newer XBMC lineage is one fixed order, text, number then date. The tables' keys are disjoint, so the result does not depend on that order.
- Lower-casing and `compareToIgnoreCase` fold ASCII letters only.
- Text.ParseInt: accepts ASCII digits only. `Integer.parseInt` also reads other Unicode decimal digits, so "١٢" is 12 in the source but refused here; the GMMP preconditions then exclude such a value.
- TimeParse.ScanFrom: counts ASCII digits only, where `Character.isDigit` counts every Unicode decimal digit. On a text holding such a digit the error offset here can differ.
- TimeParse.Parse: its error offset differs from the source's on Unicode digits other than ASCII, as for ScanFrom. Offsets count characters, where Java counts UTF-16 code units, so they also differ after a character outside the Basic Multilingual Plane.
- Text.CompareTo: compares characters as Unicode code points. `String.compareTo` compares UTF-16 code units, so a character outside the Basic Multilingual Plane sorts before U+E000 to U+FFFF there and after them here.
- Dates.Parse: reads ASCII digits only, where `SimpleDateFormat` also reads other Unicode decimal digits.
- A comparator of `FileListSortType`'s tables is stored as its options, not as an object.
- Null files in `FileComparator`'s directory comparison would crash. A file is an `Option` here, and a directory-sensitive comparison requires both files.
- GUI, command line, preferences and `System.exit` are not part of this model.
- LegacyXbmcTools.SettingsRoundTrip: requires that the order key has a name in the field table; a key without one comes back as title.
- XbmcCodecs.LastPlayedRoundTrip, XbmcTools.LastPlayedRuleRoundTrip, LegacyXbmcTools.LastPlayedRuleRoundTrip: require the amount in the largest unit to fit in 32 bits, because the written number is read back with `Integer.parseInt`.
- Gmmp.PeriodReadBack, Gmmp.PeriodRuleRead, Gmmp.PeriodRuleRoundTrip: require the same 32-bit bound, up to days.
- TimeParse.WordsRoundTrip, TimeParse.ParseWordsOneSpace: require the number to fit in 32 bits.

## Findings

| source | as written | input that shows it | evidently intended | confidence | as-written member | corrected member |
|---|---|---|---|---|---|---|
| modules/Converter/src/main/java/com/adashrod/smartplaylists/converters/XbmcPlaylistConverterTools.java:226-239 | only the text-field branch looks up an operator name; the number and date branches set the field name but leave the operator null, so the check after them rejects the rule | the agnostic rule "year is 1999" is dropped with an operator-not-allowed message | the number and date branches look up the operator in their own tables, as the text branch does, so "year is 1999" is written as year / is / 1999 | not executed | XbmcTools.EncodeRuleAsWritten, XbmcTools.AsWrittenDropsYearRule, XbmcTools.FromAgnostic | XbmcTools.EncodeRule |
| modules/SmartPlaylists/src/main/java/com/adashrod/smartplaylists/FileComparator.java:67 | descending case-sensitive comparison is `file2Text.compareTo(file2Text)`, which is always 0 | files "a.mp3" and "b.mp3", by name, descending, case-sensitive: the result is 0 | `file2Text.compareTo(file1Text)`, as in the case-insensitive branch: the result is positive | not executed | FileComparator.AsWrittenTiesDistinctNames, FileComparator.AsWrittenDescendingTies, FileComparator.FileComparator.Compare | FileComparator.Ordering |
