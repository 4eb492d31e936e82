/** The XBMC converter tools of the newer lineage. Field names come in three
    tables (string, number and date fields), each with its own table of the
    operators allowed on it; durations are read and written as clock texts,
    last-played periods as "<n> <unit>", dates as yyyy-MM-dd. Both directions
    start from the values XBMC assumes when the XML leaves them out.

    The TimePeriod and TimePeriodFormat classes these tools call are given
    the behaviour of Time.parse's two formats and of getLargestUnit. */
module XbmcTools {
  import opened Outcomes
  import Text
  import Time
  import TimeParse
  import Dates
  import opened Playlists
  import opened XbmcCodecs

  // ----- The tables

  /** PLAYLIST_TYPE_MAP. */
  const PlaylistTypeTable: seq<(string, PlaylistType)> :=
    [("songs", Music), ("artists", Artists), ("albums", Albums), ("mixed", Mixed)]

  /** STRING_FIELD_MAP. */
  const StringFieldTable: seq<(string, Field)> := [
    ("artist", Artist), ("albumartist", AlbumArtist), ("title", Title), ("album", Album),
    ("genre", Genre), ("path", Path), ("filename", FileName), ("comment", Comment), ("playlist", Playlist)]

  /** NUMBER_FIELD_MAP; XBMC's "time" is the duration of a song. */
  const NumberFieldTable: seq<(string, Field)> :=
    [("year", Year), ("tracknumber", TrackNumber), ("time", Duration), ("playcount", PlayCount), ("rating", Rating)]

  /** DATE_FIELD_MAP. */
  const DateFieldTable: seq<(string, Field)> := [("lastplayed", LastPlayed)]

  /** STRING_OPERATOR_MAP. */
  const StringOperatorTable: seq<(string, Operator)> := [
    ("is", Is), ("isnot", IsNot), ("startswith", StartsWith), ("endswith", EndsWith),
    ("contains", Contains), ("doesnotcontain", DoesNotContain)]

  /** NUMBER_OPERATOR_MAP. */
  const NumberOperatorTable: seq<(string, Operator)> :=
    [("is", Is), ("isnot", IsNot), ("lessthan", LessThan), ("greaterthan", GreaterThan)]

  /** DATE_OPERATOR_MAP. */
  const DateOperatorTable: seq<(string, Operator)> :=
    [("before", Before), ("after", After), ("inthelast", InTheLast), ("notinthelast", NotInTheLast)]

  function FieldTable(c: Category): seq<(string, Field)>
  {
    match c
    case Textual => StringFieldTable
    case Numeric => NumberFieldTable
    case Temporal => DateFieldTable
  }

  function OperatorTable(c: Category): seq<(string, Operator)>
  {
    match c
    case Textual => StringOperatorTable
    case Numeric => NumberOperatorTable
    case Temporal => DateOperatorTable
  }

  /** Every table is a bijection, as a BiMap must be. */
  lemma {:induction false} FieldTableOneToOne(c: Category)
    ensures OneToOne(FieldTable(c))
  {
    match c
    case Textual => assert OneToOne(StringFieldTable);
    case Numeric => assert OneToOne(NumberFieldTable);
    case Temporal =>
  }

  lemma {:induction false} OperatorTableOneToOne(c: Category)
    ensures OneToOne(OperatorTable(c))
  {
    match c
    case Textual => assert OneToOne(StringOperatorTable);
    case Numeric => assert OneToOne(NumberOperatorTable);
    case Temporal => assert OneToOne(DateOperatorTable);
  }

  /** No field name and no field is in two of the field tables. */
  lemma FieldTablesDisjoint()
    ensures Disjoint(StringFieldTable, NumberFieldTable)
    ensures Disjoint(StringFieldTable, DateFieldTable)
    ensures Disjoint(NumberFieldTable, DateFieldTable)
  {
  }

  lemma {:induction false} CategoriesDisjoint(c: Category, d: Category)
    requires c != d
    ensures Disjoint(FieldTable(c), FieldTable(d))
  {
    FieldTablesDisjoint();
    match (c, d)
    case (Numeric, Textual) => DisjointSymmetric(StringFieldTable, NumberFieldTable);
    case (Temporal, Textual) => DisjointSymmetric(StringFieldTable, DateFieldTable);
    case (Temporal, Numeric) => DisjointSymmetric(NumberFieldTable, DateFieldTable);
    case _ =>
  }

  /** The category of a field name: the string fields are tried first, then
      the number fields, then the date fields, as convertRule does. */
  function CategoryOfName(name: Option<string>): (c: Option<Category>)
    ensures c.Some? ==> Lookup(FieldTable(c.value), name).Some?
    ensures c.None? ==> forall d :: Lookup(FieldTable(d), name).None?
  {
    if Lookup(StringFieldTable, name).Some? then Some(Textual)
    else if Lookup(NumberFieldTable, name).Some? then Some(Numeric)
    else if Lookup(DateFieldTable, name).Some? then Some(Temporal)
    else None
  }

  /** The category of a field, tried in the same order on the values. */
  function CategoryOfField(field: Option<Field>): (c: Option<Category>)
    ensures c.Some? ==> KeyOf(FieldTable(c.value), field).Some?
    ensures c.None? ==> forall d :: KeyOf(FieldTable(d), field).None?
  {
    if KeyOf(StringFieldTable, field).Some? then Some(Textual)
    else if KeyOf(NumberFieldTable, field).Some? then Some(Numeric)
    else if KeyOf(DateFieldTable, field).Some? then Some(Temporal)
    else None
  }

  /** A name in one field table is in no other, so the order the tables are
      tried in does not matter. */
  lemma {:induction false} NameInOneCategory(c: Category, name: Option<string>)
    requires Lookup(FieldTable(c), name).Some?
    ensures CategoryOfName(name) == Some(c)
    ensures forall d :: d != c ==> Lookup(FieldTable(d), name).None?
  {
    forall d | d != c ensures Lookup(FieldTable(d), name).None? {
      CategoriesDisjoint(c, d);
      DisjointLookups(FieldTable(c), FieldTable(d), name, None);
    }
  }

  lemma {:induction false} FieldInOneCategory(c: Category, field: Option<Field>)
    requires KeyOf(FieldTable(c), field).Some?
    ensures CategoryOfField(field) == Some(c)
    ensures forall d :: d != c ==> KeyOf(FieldTable(d), field).None?
  {
    forall d | d != c ensures KeyOf(FieldTable(d), field).None? {
      CategoriesDisjoint(c, d);
      DisjointLookups(FieldTable(c), FieldTable(d), None, field);
    }
  }

  /** The field a name stands for in whichever table has it. */
  function FieldByAnyName(name: Option<string>): Option<Field>
  {
    match CategoryOfName(name)
    case None => None
    case Some(c) => Lookup(FieldTable(c), name)
  }

  /** The name of a field in whichever table has it. */
  function FieldNameAny(field: Option<Field>): Option<string>
  {
    match CategoryOfField(field)
    case None => None
    case Some(c) => KeyOf(FieldTable(c), field)
  }

  /** A field named in a table has that table's category, and its name is
      read back as the field, in the same category. */
  lemma {:induction false} FieldRoundTrip(c: Category, f: Field)
    requires KeyOf(FieldTable(c), Some(f)).Some?
    ensures var name := KeyOf(FieldTable(c), Some(f));
      CategoryOfField(Some(f)) == Some(c) && CategoryOfName(name) == Some(c)
      && Lookup(FieldTable(c), name) == Some(f)
      && FieldNameAny(Some(f)) == name && FieldByAnyName(name) == Some(f)
  {
    FieldTableOneToOne(c);
    TableRoundTrip(FieldTable(c), None, Some(f));
    FieldInOneCategory(c, Some(f));
    NameInOneCategory(c, KeyOf(FieldTable(c), Some(f)));
  }

  /** An operator in a category's table is read back from its name. */
  lemma {:induction false} OperatorRoundTrip(c: Category, o: Operator)
    requires KeyOf(OperatorTable(c), Some(o)).Some?
    ensures Lookup(OperatorTable(c), KeyOf(OperatorTable(c), Some(o))) == Some(o)
  {
    OperatorTableOneToOne(c);
    TableRoundTrip(OperatorTable(c), None, Some(o));
  }

  /** Reading any field name and writing the field gives the name back, and
      the other way round. */
  lemma {:induction false} FieldNamesRoundTrip(name: Option<string>, field: Option<Field>)
    ensures FieldByAnyName(name).Some? ==> FieldNameAny(FieldByAnyName(name)) == name
    ensures FieldNameAny(field).Some? ==> FieldByAnyName(FieldNameAny(field)) == field
  {
    if CategoryOfName(name).Some? {
      var c := CategoryOfName(name).value;
      FieldTableOneToOne(c);
      TableRoundTrip(FieldTable(c), name, None);
      FieldRoundTrip(c, Lookup(FieldTable(c), name).value);
    }
    if CategoryOfField(field).Some? {
      FieldRoundTrip(CategoryOfField(field).value, field.value);
    }
  }

  /** Every playlist type has a name, which is read back as the type. */
  lemma {:induction false} PlaylistTypeRoundTrip(t: Option<PlaylistType>)
    ensures Lookup(PlaylistTypeTable, KeyOf(PlaylistTypeTable, t)) == t
    ensures t.Some? ==> KeyOf(PlaylistTypeTable, t).Some?
  {
    if t.Some? {
      var i := match t.value case Music => 0 case Artists => 1 case Albums => 2 case Mixed => 3;
      assert PlaylistTypeTable[i].1 == t.value;
      assert OneToOne(PlaylistTypeTable);
      LookupAt(PlaylistTypeTable, i);
    }
  }

  /** Entries the round trips below need. */
  lemma NamedEntries()
    ensures KeyOf(StringFieldTable, Some(Title)) == Some("title")
    ensures KeyOf(StringFieldTable, Some(Playlist)) == Some("playlist")
    ensures KeyOf(NumberFieldTable, Some(Duration)) == Some("time")
    ensures KeyOf(DateFieldTable, Some(LastPlayed)) == Some("lastplayed")
    ensures forall o :: o in {Before, After, InTheLast, NotInTheLast} ==> KeyOf(DateOperatorTable, Some(o)).Some?
  {
    FieldTableOneToOne(Textual);
    LookupAt(StringFieldTable, 2);
    LookupAt(StringFieldTable, 8);
    FieldTableOneToOne(Numeric);
    LookupAt(NumberFieldTable, 2);
    OperatorTableOneToOne(Temporal);
    LookupAt(DateOperatorTable, 0);
    LookupAt(DateOperatorTable, 1);
    LookupAt(DateOperatorTable, 2);
    LookupAt(DateOperatorTable, 3);
  }

  // ----- Time periods

  /** TIME_FORMAT_MS, "mm:ss": two groups of the clock format. */
  predicate MinutesSecondsFormat(s: string)
  {
    TimeParse.ClockFormat(s) && |TimeParse.ClockGroups(s)| == 2
  }

  /** TIME_FORMAT_HMS, "hh:mm:ss": three groups of the clock format. */
  predicate HoursMinutesSecondsFormat(s: string)
  {
    TimeParse.ClockFormat(s) && |TimeParse.ClockGroups(s)| == 3
  }

  /** parseXbmcTimePeriod: "mm:ss", and when that fails "hh:mm:ss"; the
      ParseException of the second format when both fail. */
  function ParsePeriod(s: string): TimeParse.ParseResult
  {
    if MinutesSecondsFormat(s) then TimeParse.Parsed(TimeParse.ParseAsClock(s))
    else if HoursMinutesSecondsFormat(s) then TimeParse.Parsed(TimeParse.ParseAsClock(s))
    else TimeParse.Malformed(TimeParse.ClockErrorOffset(s))
  }

  /** formatXbmcTimePeriod: "hh:mm:ss" when the period has hours, with the
      days and weeks folded into the hours (the format's largest unit), and
      otherwise "mm:ss", everything above the minutes folded into them. */
  function FormatPeriod(span: Time.Span): string
  {
    var t := Time.NormalizeSpan(span);
    if t.hours > 0 then
      var h := Time.DeNormalizeSpan(t, Time.Hours);
      Time.Pad2(h.hours) + ":" + Time.Pad2(h.minutes) + ":" + Time.Pad2(h.seconds)
    else
      var m := Time.DeNormalizeSpan(t, Time.Minutes);
      Time.Pad2(m.minutes) + ":" + Time.Pad2(m.seconds)
  }

  /** TimePeriod.parseAsWords: "<n> <unit>", with the ParseException of
      Time.parse for any other text. */
  function ParsePeriodWords(s: string): TimeParse.ParseResult
  {
    if TimeParse.WordFormat(s) then TimeParse.ParseAsWords(s)
    else TimeParse.Malformed(TimeParse.WordErrorOffset(s))
  }

  /** Exactly the clock texts are read as periods. */
  lemma {:induction false} ParsePeriodAccepts(s: string)
    ensures ParsePeriod(s).Parsed? <==> TimeParse.ClockFormat(s)
    ensures ParsePeriod(s).Parsed? ==> ParsePeriod(s) == TimeParse.ParseText(s)
    ensures !ParsePeriod(s).BadNumber?
  {
  }

  /** A period of less than a day is written as Time.toString writes it. */
  lemma {:induction false} FormatPeriodClock(span: Time.Span)
    requires Time.NonNegative(span) && Time.TotalSeconds(span) < 86400
    ensures var t := Time.NormalizeSpan(span);
      Time.IsNormal(t) && t.weeks == 0 && t.days == 0 && FormatPeriod(span) == Time.ClockText(t)
  {
    var t := Time.NormalizeSpan(span);
    Time.TimeOfDay(t);
    if t.hours > 0 {
      assert Time.DeNormalizeSpan(t, Time.Hours) == t;
    } else {
      assert Time.DeNormalizeSpan(t, Time.Minutes) == t;
    }
  }

  /** A period of less than a day is written as Time.toString writes it and
      read back as the normalized period. */
  lemma {:induction false} PeriodRoundTrip(span: Time.Span)
    requires Time.NonNegative(span) && Time.TotalSeconds(span) < 86400
    ensures FormatPeriod(span) == Time.ClockText(Time.NormalizeSpan(span))
    ensures ParsePeriod(FormatPeriod(span)) == TimeParse.Parsed(Time.NormalizeSpan(span))
  {
    FormatPeriodClock(span);
    TimeParse.ClockRoundTrip(Time.NormalizeSpan(span));
  }

  // ----- Reading an XBMC playlist

  /** The end of convertRule: the rule, or the IllegalArgumentException for
      an operator the field's table does not have. */
  function WithOperator(f: Field, o: Option<Operator>, r: XbmcRule, operand: Option<Operand>): (st: Step<Rule, Diagnostic>)
    ensures |st.notes| == if st.kept.Some? then 0 else 1
  {
    if o.None? then Step(None, [OperatorNotOnField(r.operator, f)])
    else Step(Some(Rule(Some(f), o, operand)), [])
  }

  /** A period read from an operand, or what convert logs for the
      ParseException or the NumberFormatException. */
  function PeriodRead(f: Field, o: Option<Operator>, r: XbmcRule, text: string, read: TimeParse.ParseResult)
    : (st: Step<Rule, Diagnostic>)
    ensures |st.notes| == if st.kept.Some? then 0 else 1
  {
    match read
    case Parsed(span) => WithOperator(f, o, r, Some(PeriodOperand(span)))
    case Malformed(offset) => Step(None, [ParseFailure(TimeParse.FailureMessage(text), offset)])
    case BadNumber(token) => Step(None, [NotANumber(token)])
  }

  /** A date read from an operand with DATE_FORMAT, or what convert logs for
      the ParseException. */
  function DateRead(f: Field, o: Option<Operator>, r: XbmcRule, text: string): (st: Step<Rule, Diagnostic>)
    ensures |st.notes| == if st.kept.Some? then 0 else 1
  {
    match ParseDate(text)
    case Ok(d) => WithOperator(f, o, r, Some(DateOperand(d)))
    case Err(offset) => Step(None, [ParseFailure(Dates.FailureMessage(text), offset)])
  }

  function TextOf(operand: Option<string>): Option<Operand>
  {
    match operand
    case None => None
    case Some(text) => Some(TextOperand(text))
  }

  /** Whether convertRule parses the operand of a rule on field f of
      category c with operator o: a duration, or a date field with a
      period or date operator. Each parse fails on a missing operand. */
  predicate ParsesIn(c: Category, f: Field, o: Option<Operator>)
  {
    (c == Numeric && f == Duration)
    || (c == Temporal && o in {Some(InTheLast), Some(NotInTheLast), Some(Before), Some(After)})
  }

  /** convertRule once the category c and field f of the rule are known and
      o is its operator in that category's table. A duration is parsed
      before the operator is checked. */
  function DecodeIn(c: Category, f: Field, o: Option<Operator>, r: XbmcRule): (st: Step<Rule, Diagnostic>)
    requires ParsesIn(c, f, o) ==> r.operand.Some?
    ensures |st.notes| == if st.kept.Some? then 0 else 1
  {
    match c
    case Textual => WithOperator(f, o, r, TextOf(r.operand))
    case Numeric =>
      if f == Duration then PeriodRead(f, o, r, r.operand.value, ParsePeriod(r.operand.value))
      else WithOperator(f, o, r, TextOf(r.operand))
    case Temporal =>
      if o == Some(InTheLast) || o == Some(NotInTheLast) then
        PeriodRead(f, o, r, r.operand.value, ParsePeriodWords(r.operand.value))
      else if o == Some(Before) || o == Some(After) then DateRead(f, o, r, r.operand.value)
      else WithOperator(f, o, r, None)
  }

  predicate ParsesOperand(r: XbmcRule)
  {
    match CategoryOfName(r.field)
    case None => false
    case Some(c) => ParsesIn(c, Lookup(FieldTable(c), r.field).value, Lookup(OperatorTable(c), r.operator))
  }

  /** Every rule whose operand is parsed has one. */
  predicate Readable(rules: seq<XbmcRule>)
  {
    forall i :: 0 <= i < |rules| ==> ParsesOperand(rules[i]) ==> rules[i].operand.Some?
  }

  /** convertRule, together with what convert does with its exceptions: the
      canonical rule, or the one message logged when the rule is dropped. */
  function DecodeRule(r: XbmcRule): (st: Step<Rule, Diagnostic>)
    requires ParsesOperand(r) ==> r.operand.Some?
    ensures |st.notes| == if st.kept.Some? then 0 else 1
  {
    match CategoryOfName(r.field)
    case None => Step(None, [UnknownField(r.field)])
    case Some(c) => DecodeIn(c, Lookup(FieldTable(c), r.field).value, Lookup(OperatorTable(c), r.operator), r)
  }

  /** A rule on a name in no table is dropped with a message naming it; a
      rule that is kept has the field its name stands for and an operator
      from the table of that field's category. */
  lemma {:induction false} DecodeRuleNames(r: XbmcRule)
    requires ParsesOperand(r) ==> r.operand.Some?
    ensures var st := DecodeRule(r);
      && (FieldByAnyName(r.field).None? ==> st == Step(None, [UnknownField(r.field)]))
      && (st.kept.Some? ==>
            && st.kept.value.field == FieldByAnyName(r.field)
            && st.kept.value.operator == Lookup(OperatorTable(CategoryOfName(r.field).value), r.operator)
            && st.kept.value.operator.Some?)
  {
  }

  function DecodeSteps(rules: seq<XbmcRule>): (steps: seq<Step<Rule, Diagnostic>>)
    requires Readable(rules)
    ensures |steps| == |rules|
    ensures forall i :: 0 <= i < |rules| ==> steps[i] == DecodeRule(rules[i])
  {
    if rules == [] then []
    else
      var init := rules[..|rules| - 1];
      assert Readable(init) by {
        forall i | 0 <= i < |init| ensures ParsesOperand(init[i]) ==> init[i].operand.Some? {
          assert init[i] == rules[i];
        }
      }
      DecodeSteps(init) + [DecodeRule(rules[|rules| - 1])]
  }

  lemma {:induction false} DecodeStepsSnoc(rules: seq<XbmcRule>, i: nat)
    requires Readable(rules) && i < |rules|
    ensures Readable(rules[..i]) && Readable(rules[..i + 1])
    ensures DecodeSteps(rules[..i + 1]) == DecodeSteps(rules[..i]) + [DecodeRule(rules[i])]
  {
    assert rules[..i + 1][..i] == rules[..i];
  }

  /** The defaults XBMC assumes, which both directions start from. */
  const DefaultMatchAll := false
  const DefaultOrder := Order(true, Some(Title))
  const DefaultLimit := 0

  /** The playlist after setDefaultsOn(AgnosticSmartPlaylist). */
  function AgnosticDefaults(p: AgnosticValue): AgnosticValue
  {
    p.(order := Some(DefaultOrder), matchAll := Some(DefaultMatchAll), limit := Some(DefaultLimit))
  }

  /** The order after overrideDefaults: the direction and the key given in
      the XBMC order, where it gives them and the key names a field. */
  function OrderFromXbmc(current: Order, order: Option<XbmcOrder>): Order
  {
    if order.None? then current
    else
      var key := FieldByAnyName(order.value.sortKey);
      Order(if order.value.direction.Some? then AscendingFromXbmc(order.value.direction.value) else current.ascending,
            if key.Some? then key else current.key)
  }

  /** The playlist after overrideDefaults(AgnosticSmartPlaylist, XbmcSmartPlaylist). */
  function OverriddenFromXbmc(p: AgnosticValue, x: XbmcValue): AgnosticValue
    requires p.order.Some?
  {
    p.(order := Some(OrderFromXbmc(p.order.value, x.order)),
       matchAll := if x.matching.Some? then Some(MatchAllFromXbmc(x.matching.value)) else p.matchAll,
       limit := if x.limit.Some? then x.limit else p.limit)
  }

  /** What overrideDefaults logs: a sort key given that names no field. */
  function SortKeyNotes(order: Option<XbmcOrder>): seq<Diagnostic>
  {
    if order.Some? && order.value.sortKey.Some? && FieldByAnyName(order.value.sortKey).None?
    then [InvalidOrderValue(order.value.sortKey.value)] else []
  }

  /** XBMC playlists cannot be ordered by playlist: such an order is by title. */
  function WithoutPlaylistKey(order: Order): Order
  {
    if order.key == Some(Playlist) then order.(key := Some(Title)) else order
  }

  function PlaylistKeyNotes(order: Order): seq<Diagnostic>
  {
    if order.key == Some(Playlist) then [OrderByPlaylist] else []
  }

  /** The playlist convert(XbmcSmartPlaylist, errorLog) has built when it
      comes to the rules. */
  function SettingsFromXbmc(x: XbmcValue): AgnosticValue
  {
    var s := OverriddenFromXbmc(AgnosticDefaults(NewAgnostic), x);
    s.(order := Some(WithoutPlaylistKey(s.order.value)),
       playlistType := Lookup(PlaylistTypeTable, x.playlistType),
       name := x.name)
  }

  /** What convert(XbmcSmartPlaylist, errorLog) returns. */
  function Decoded(x: XbmcValue): AgnosticValue
    requires Readable(x.rules)
  {
    SettingsFromXbmc(x).(rules := Kept(DecodeSteps(x.rules)))
  }

  /** What convert(XbmcSmartPlaylist, errorLog) logs about the settings. */
  function DecodeSettingsNotes(x: XbmcValue): seq<Diagnostic>
  {
    SortKeyNotes(x.order) + PlaylistKeyNotes(OrderFromXbmc(DefaultOrder, x.order))
  }

  /** FIELD_MAPS, in one of the orders the set may yield its tables in. */
  const FieldMaps: seq<Category> := [Textual, Numeric, Temporal]

  lemma FieldMapsComplete()
    ensures forall c :: c in FieldMaps
  {
    forall c ensures c in FieldMaps {
      match c
      case Textual => assert FieldMaps[0] == c;
      case Numeric => assert FieldMaps[1] == c;
      case Temporal => assert FieldMaps[2] == c;
    }
  }

  /** The search of overrideDefaults through the field tables for a sort
      key, in any order that visits every table: the key names the same
      field whatever the order, because the tables are disjoint. */
  method SearchFieldMaps(sortKey: Option<string>, maps: seq<Category>) returns (key: Option<Field>)
    requires forall c :: c in maps
    ensures key == FieldByAnyName(sortKey)
  {
    var i := 0;
    while i < |maps|
      invariant 0 <= i <= |maps|
      invariant forall k :: 0 <= k < i ==> Lookup(FieldTable(maps[k]), sortKey).None?
    {
      if Lookup(FieldTable(maps[i]), sortKey).Some? {
        NameInOneCategory(maps[i], sortKey);
        return Lookup(FieldTable(maps[i]), sortKey);
      }
      i := i + 1;
    }
    forall c ensures Lookup(FieldTable(c), sortKey).None? {
      assert c in maps;
      var k :| 0 <= k < |maps| && maps[k] == c;
    }
    key := None;
  }

  /** setDefaultsOn(AgnosticSmartPlaylist). */
  method SetAgnosticDefaults(p: AgnosticSmartPlaylist)
    modifies p
    ensures p.Value() == AgnosticDefaults(old(p.Value()))
  {
    p.order := Some(DefaultOrder);
    p.matchAll := Some(DefaultMatchAll);
    p.limit := Some(DefaultLimit);
  }

  /** overrideDefaults(AgnosticSmartPlaylist, XbmcSmartPlaylist, errorLog):
      order key, direction, match and limit are overwritten only where the
      XBMC playlist has them; a sort key naming no field is logged. */
  method OverrideFromXbmc(p: AgnosticSmartPlaylist, x: XbmcSmartPlaylist, errorLog: ErrorLog)
    requires p.order.Some?
    modifies p, errorLog
    ensures p.Value() == OverriddenFromXbmc(old(p.Value()), x.Value())
    ensures errorLog.messages == old(errorLog.messages) + SortKeyNotes(x.order)
  {
    if x.order.Some? {
      var xo := x.order.value;
      if xo.sortKey.Some? {
        FieldMapsComplete();
        var key := SearchFieldMaps(xo.sortKey, FieldMaps);
        if key.Some? {
          p.order := Some(p.order.value.(key := key));
        } else {
          errorLog.AddAll([InvalidOrderValue(xo.sortKey.value)]);
        }
      }
      if xo.direction.Some? {
        p.order := Some(p.order.value.(ascending := AscendingFromXbmc(xo.direction.value)));
      }
    }
    if x.matching.Some? {
      p.matchAll := Some(MatchAllFromXbmc(x.matching.value));
    }
    if x.limit.Some? {
      p.limit := x.limit;
    }
  }

  /** The first part of convert(XbmcSmartPlaylist, errorLog): the defaults,
      overridden by what the XBMC playlist gives, an order by playlist
      replaced by title (and logged), the type and the name. */
  method ReadSettings(x: XbmcSmartPlaylist, errorLog: ErrorLog) returns (result: AgnosticSmartPlaylist)
    modifies errorLog
    ensures fresh(result)
    ensures result.Value() == SettingsFromXbmc(x.Value()) && result.rules == []
    ensures errorLog.messages == old(errorLog.messages) + DecodeSettingsNotes(x.Value())
  {
    result := new AgnosticSmartPlaylist();
    SetAgnosticDefaults(result);
    OverrideFromXbmc(result, x, errorLog);
    var order := result.order.value;
    errorLog.AddAll(PlaylistKeyNotes(order));
    result.order := Some(WithoutPlaylistKey(order));
    result.playlistType := Lookup(PlaylistTypeTable, x.playlistType);
    result.name := x.name;
  }

  /** The loop of convert(XbmcSmartPlaylist, errorLog): each rule in turn is
      converted and added to the playlist, or logged and left out. */
  method AddDecodedRules(result: AgnosticSmartPlaylist, rules: seq<XbmcRule>, errorLog: ErrorLog)
    requires Readable(rules)
    modifies result, errorLog
    ensures result.Value() == old(result.Value()).(rules := old(result.rules) + Kept(DecodeSteps(rules)))
    ensures errorLog.messages == old(errorLog.messages) + Notes(DecodeSteps(rules))
  {
    var added: seq<Rule> := [];
    var i := 0;
    ghost var steps := [];
    while i < |rules|
      modifies errorLog
      invariant 0 <= i <= |rules|
      invariant Readable(rules[..i]) && steps == DecodeSteps(rules[..i])
      invariant added == Kept(steps)
      invariant errorLog.messages == old(errorLog.messages) + Notes(steps)
    {
      var step := DecodeRule(rules[i]);
      DecodeStepsSnoc(rules, i);
      StepAppended(old(errorLog.messages), steps, step);
      added := added + Kept([step]);
      errorLog.AddAll(step.notes);
      steps := steps + [step];
      i := i + 1;
    }
    assert rules[..i] == rules;
    result.rules := result.rules + added;
  }

  /** convert(XbmcSmartPlaylist, errorLog): the settings, then the rules. */
  method ToAgnostic(x: XbmcSmartPlaylist, errorLog: ErrorLog) returns (result: AgnosticSmartPlaylist)
    requires Readable(x.rules)
    modifies errorLog
    ensures fresh(result)
    ensures result.Value() == Decoded(x.Value())
    ensures errorLog.messages == old(errorLog.messages) + DecodeSettingsNotes(x.Value()) + Notes(DecodeSteps(x.rules))
  {
    ghost var xv := x.Value();
    result := ReadSettings(x, errorLog);
    ghost var settled := result.Value();
    AddDecodedRules(result, x.rules, errorLog);
    assert result.Value() == settled.(rules := Kept(DecodeSteps(xv.rules)));
  }

  /** Every rule convert drops is logged once, every rule it keeps not at all;
      the rules it keeps are converted in input order. */
  lemma {:induction false} DecodeLogsEachDroppedRule(rules: seq<XbmcRule>, i: nat)
    requires Readable(rules) && i < |rules|
    ensures var steps := DecodeSteps(rules);
      |Notes(steps)| == |rules| - |Kept(steps)|
      && (DecodeRule(rules[i]).kept.Some? ==>
            Kept(steps) == Kept(steps[..i]) + [DecodeRule(rules[i]).kept.value] + Kept(steps[i + 1..]))
  {
    var steps := DecodeSteps(rules);
    OneNotePerDropCounts(steps);
    if DecodeRule(rules[i]).kept.Some? {
      KeptContains(steps, i);
    }
  }

  /** The settings read from an XBMC playlist: a value it leaves out is the
      default; an order key is the field its sort key names, never the
      playlist, and title when it names none; at most one message is logged,
      and only for an unusable sort key. */
  lemma {:induction false} DecodedSettings(x: XbmcValue)
    requires Readable(x.rules)
    ensures var q := Decoded(x);
      && q.matchAll == Some(x.matching == Some(MatchAllForXbmc(true)))
      && q.limit == (if x.limit.Some? then x.limit else Some(DefaultLimit))
      && q.order.Some?
      && q.order.value.ascending == (x.order.None? || x.order.value.direction != Some(DirectionForXbmc(false)))
      && q.order.value.key.Some? && q.order.value.key != Some(Playlist)
      && (x.order.Some? && FieldByAnyName(x.order.value.sortKey).Some?
          && FieldByAnyName(x.order.value.sortKey) != Some(Playlist)
          ==> q.order.value.key == FieldByAnyName(x.order.value.sortKey))
      && (x.order.None? || FieldByAnyName(x.order.value.sortKey).None?
          ==> q.order.value.key == Some(Title))
    ensures var notes := DecodeSettingsNotes(x);
      && |notes| <= 1
      && (notes == [] <==> (x.order.None? || x.order.value.sortKey.None?
            || (FieldByAnyName(x.order.value.sortKey).Some? && FieldByAnyName(x.order.value.sortKey) != Some(Playlist))))
  {
    if x.matching.Some? {
      CodecsRoundTrip(true, x.matching.value);
    }
    if x.order.Some? && x.order.value.direction.Some? {
      CodecsRoundTrip(true, x.order.value.direction.value);
    }
  }

  // ----- Writing an XBMC playlist

  /** Whether convertRule gets to the operand, which it dereferences: the
      field is in a table and the operator in that category's table. */
  predicate EncodesOperand(r: Rule)
  {
    match CategoryOfField(r.field)
    case None => false
    case Some(c) => KeyOf(OperatorTable(c), r.operator).Some?
  }

  /** Whether convertRule as written gets to the operand: only a field of
      the string table with an operator of the string table does. */
  predicate EncodesOperandAsWritten(r: Rule)
  {
    CategoryOfField(r.field) == Some(Textual) && KeyOf(StringOperatorTable, r.operator).Some?
  }

  /** The rules convert can go through without dereferencing a missing
      operand. */
  predicate Writable(rules: seq<Rule>)
  {
    forall i :: 0 <= i < |rules| ==> EncodesOperandAsWritten(rules[i]) ==> rules[i].operand.Some?
  }

  /** The operand part of convertRule: text is copied, a period on the
      last-played field is written as "<n> <unit>" and on the duration field
      as a clock text, a period on any other field is refused, a date is
      written as yyyy-MM-dd. */
  function EncodeOperand(r: Rule, field: Option<string>, operator: Option<string>): (st: Step<XbmcRule, Diagnostic>)
    requires r.operand.Some?
    ensures |st.notes| == if st.kept.Some? then 0 else 1
    ensures st.kept.Some? ==>
      st.kept.value.field == field && st.kept.value.operator == operator && st.kept.value.operand.Some?
    ensures st.kept.None? <==> r.operand.value.PeriodOperand? && r.field !in {Some(LastPlayed), Some(Duration)}
  {
    match r.operand.value
    case TextOperand(text) => Step(Some(XbmcRule(field, operator, Some(text))), [])
    case PeriodOperand(span) =>
      if r.field == Some(LastPlayed) then Step(Some(XbmcRule(field, operator, Some(LastPlayedText(span)))), [])
      else if r.field == Some(Duration) then Step(Some(XbmcRule(field, operator, Some(FormatPeriod(span)))), [])
      else Step(None, [CombinationNotAllowed(r.field)])
    case DateOperand(d) => Step(Some(XbmcRule(field, operator, Some(FormatDate(d)))), [])
  }

  /** convertRule(ruleType, rule, errorLog) AS WRITTEN: only the string
      branch sets the operator, so every number or date field fails the
      operator check that follows. */
  function EncodeRuleAsWritten(r: Rule): (st: Step<XbmcRule, Diagnostic>)
    requires EncodesOperandAsWritten(r) ==> r.operand.Some?
    ensures |st.notes| == if st.kept.Some? then 0 else 1
    ensures st.kept.Some? ==> CategoryOfField(r.field) == Some(Textual) && st == EncodeRule(r)
    ensures st.kept.Some? ==> st.kept.value.operand.Some?
  {
    match CategoryOfField(r.field)
    case None => Step(None, [FieldNotSupported(r.field)])
    case Some(c) =>
      var operator := if c == Textual then KeyOf(OperatorTable(c), r.operator) else None;
      if operator.None? then Step(None, [OperatorNotAllowed(r.operator, r.field)])
      else EncodeOperand(r, KeyOf(FieldTable(c), r.field), operator)
  }

  /** convertRule(ruleType, rule, errorLog) as intended, with what convert
      does with its exception: the operator is looked up in the table of the
      field's category, whatever the category. A field in no table, an
      operator not allowed on the field or a period on a field that takes
      none drops the rule with one message. */
  function EncodeRule(r: Rule): (st: Step<XbmcRule, Diagnostic>)
    requires EncodesOperand(r) ==> r.operand.Some?
    ensures |st.notes| == if st.kept.Some? then 0 else 1
    ensures st.kept.Some? ==> EncodesOperand(r) && st.kept.value.operand.Some?
  {
    match CategoryOfField(r.field)
    case None => Step(None, [FieldNotSupported(r.field)])
    case Some(c) =>
      var operator := KeyOf(OperatorTable(c), r.operator);
      if operator.None? then Step(None, [OperatorNotAllowed(r.operator, r.field)])
      else EncodeOperand(r, KeyOf(FieldTable(c), r.field), operator)
  }

  /** As written, every rule on a number or date field is dropped with the
      operator message, while the intended conversion differs only there. */
  lemma {:induction false} AsWrittenDropsNumberAndDateRules(r: Rule)
    requires EncodesOperand(r) ==> r.operand.Some?
    ensures CategoryOfField(r.field) == Some(Textual) ==> EncodeRuleAsWritten(r) == EncodeRule(r)
    ensures CategoryOfField(r.field) in {Some(Numeric), Some(Temporal)} ==>
      EncodeRuleAsWritten(r) == Step(None, [OperatorNotAllowed(r.operator, r.field)])
  {
  }

  /** A rule "year is 1999": written as intended it is kept and read back
      unchanged, but as written it is dropped. */
  lemma AsWrittenDropsYearRule()
    ensures var r := Rule(Some(Year), Some(Is), Some(TextOperand("1999")));
      && EncodeRuleAsWritten(r) == Step(None, [OperatorNotAllowed(Some(Is), Some(Year))])
      && EncodeRule(r) == Step(Some(XbmcRule(Some("year"), Some("is"), Some("1999"))), [])
      && DecodeRule(EncodeRule(r).kept.value) == Step(Some(r), [])
  {
    var r := Rule(Some(Year), Some(Is), Some(TextOperand("1999")));
    FieldTableOneToOne(Numeric);
    LookupAt(NumberFieldTable, 0);
    OperatorTableOneToOne(Numeric);
    LookupAt(NumberOperatorTable, 0);
    FieldInOneCategory(Numeric, Some(Year));
    AsWrittenDropsNumberAndDateRules(r);
    NamedRule(Numeric, Year, Is, TextOperand("1999"), "1999");
    TextRuleRoundTrip(Numeric, Year, Is, "1999");
  }

  /** The steps of the loop of convert(AgnosticSmartPlaylist, outputType,
      errorLog): each rule converted by convertRule as written. */
  function EncodeSteps(rules: seq<Rule>): (steps: seq<Step<XbmcRule, Diagnostic>>)
    requires Writable(rules)
    ensures |steps| == |rules|
    ensures forall i :: 0 <= i < |rules| ==> steps[i] == EncodeRuleAsWritten(rules[i])
  {
    if rules == [] then []
    else
      var init := rules[..|rules| - 1];
      assert Writable(init) by {
        forall i | 0 <= i < |init| ensures EncodesOperandAsWritten(init[i]) ==> init[i].operand.Some? {
          assert init[i] == rules[i];
        }
      }
      EncodeSteps(init) + [EncodeRuleAsWritten(rules[|rules| - 1])]
  }

  lemma {:induction false} EncodeStepsSnoc(rules: seq<Rule>, i: nat)
    requires Writable(rules) && i < |rules|
    ensures Writable(rules[..i]) && Writable(rules[..i + 1])
    ensures EncodeSteps(rules[..i + 1]) == EncodeSteps(rules[..i]) + [EncodeRuleAsWritten(rules[i])]
  {
    assert rules[..i + 1][..i] == rules[..i];
  }

  /** On rules of no number or date field the loop as written converts
      each rule as the intended convertRule does. */
  lemma {:induction false} EncodeStepsOnTextRules(rules: seq<Rule>)
    requires Writable(rules)
    requires forall i :: 0 <= i < |rules| ==> CategoryOfField(rules[i].field) !in {Some(Numeric), Some(Temporal)}
    ensures forall i :: 0 <= i < |rules| ==> EncodesOperand(rules[i]) ==> rules[i].operand.Some?
    ensures forall i :: 0 <= i < |rules| ==> EncodeSteps(rules)[i] == EncodeRule(rules[i])
  {
    forall i | 0 <= i < |rules|
      ensures EncodesOperand(rules[i]) ==> rules[i].operand.Some?
      ensures EncodeSteps(rules)[i] == EncodeRule(rules[i])
    {
      var r := rules[i];
      assert EncodesOperandAsWritten(r) ==> r.operand.Some?;
      if CategoryOfField(r.field) == Some(Textual) {
        AsWrittenDropsNumberAndDateRules(r);
      }
    }
  }

  /** The playlist after setDefaultsOn(XbmcSmartPlaylist): ascending by
      title, match one, no limit. */
  function XbmcDefaults(x: XbmcValue): XbmcValue
  {
    x.(order := Some(XbmcOrder(Some(DirectionForXbmc(DefaultOrder.ascending)), KeyOf(StringFieldTable, DefaultOrder.key))),
       matching := Some(MatchAllForXbmc(DefaultMatchAll)),
       limit := Some(DefaultLimit))
  }

  /** The order after overrideDefaults: the direction of the agnostic order,
      and its key where the key has a name in one of the tables. */
  function OrderFromAgnostic(current: XbmcOrder, order: Option<Order>): XbmcOrder
  {
    if order.None? then current
    else
      var name := FieldNameAny(order.value.key);
      XbmcOrder(Some(DirectionForXbmc(order.value.ascending)), if name.Some? then name else current.sortKey)
  }

  /** The playlist after overrideDefaults(XbmcSmartPlaylist, AgnosticSmartPlaylist). */
  function OverriddenFromAgnostic(x: XbmcValue, p: AgnosticValue): XbmcValue
    requires x.order.Some?
  {
    x.(order := Some(OrderFromAgnostic(x.order.value, p.order)),
       matching := if p.matchAll.Some? then Some(MatchAllForXbmc(p.matchAll.value)) else x.matching,
       limit := if p.limit.Some? then p.limit else x.limit)
  }

  /** What overrideDefaults logs: an order key with no name in the tables. */
  function OrderKeyNotes(order: Option<Order>): seq<Diagnostic>
  {
    if order.Some? && order.value.key.Some? && FieldNameAny(order.value.key).None?
    then [OrderNotAllowed(order.value.key.value)] else []
  }

  /** The playlist convert(AgnosticSmartPlaylist, outputType, errorLog) has
      built when it comes to the rules. */
  function SettingsFromAgnostic(p: AgnosticValue, version: XbmcVersion): XbmcValue
  {
    var x := OverriddenFromAgnostic(XbmcDefaults(XbmcValue(version, None, None, None, None, None, [])), p);
    x.(playlistType := KeyOf(PlaylistTypeTable, p.playlistType), name := p.name)
  }

  /** What convert(AgnosticSmartPlaylist, outputType, errorLog) returns. */
  function Encoded(p: AgnosticValue, version: XbmcVersion): XbmcValue
    requires Writable(p.rules)
  {
    SettingsFromAgnostic(p, version).(rules := Kept(EncodeSteps(p.rules)))
  }

  /** The search of overrideDefaults through the inverted field tables. */
  method SearchFieldMapsInverse(key: Field, maps: seq<Category>) returns (name: Option<string>)
    requires forall c :: c in maps
    ensures name == FieldNameAny(Some(key))
  {
    var i := 0;
    while i < |maps|
      invariant 0 <= i <= |maps|
      invariant forall k :: 0 <= k < i ==> KeyOf(FieldTable(maps[k]), Some(key)).None?
    {
      var found := KeyOf(FieldTable(maps[i]), Some(key));
      if found.Some? {
        FieldRoundTrip(maps[i], key);
        return found;
      }
      i := i + 1;
    }
    NamedInNoTable(key, maps);
    name := None;
  }

  lemma {:induction false} NamedInNoTable(key: Field, maps: seq<Category>)
    requires forall c :: c in maps
    requires forall k :: 0 <= k < |maps| ==> KeyOf(FieldTable(maps[k]), Some(key)).None?
    ensures FieldNameAny(Some(key)).None?
  {
    forall c ensures KeyOf(FieldTable(c), Some(key)).None? {
      assert c in maps;
      var k :| 0 <= k < |maps| && maps[k] == c;
    }
  }

  /** setDefaultsOn(XbmcSmartPlaylist). */
  method SetXbmcDefaults(x: XbmcSmartPlaylist)
    modifies x
    ensures x.Value() == XbmcDefaults(old(x.Value()))
  {
    x.order := Some(XbmcOrder(Some(DirectionForXbmc(DefaultOrder.ascending)), KeyOf(StringFieldTable, DefaultOrder.key)));
    x.matching := Some(MatchAllForXbmc(DefaultMatchAll));
    x.limit := Some(DefaultLimit);
  }

  /** overrideDefaults(XbmcSmartPlaylist, AgnosticSmartPlaylist, errorLog):
      the direction is written whenever there is an order, the key when it
      has a name (and logged when it has none), match and limit when given. */
  method OverrideFromAgnostic(x: XbmcSmartPlaylist, p: AgnosticSmartPlaylist, errorLog: ErrorLog)
    requires x.order.Some?
    modifies x, errorLog
    ensures x.Value() == OverriddenFromAgnostic(old(x.Value()), p.Value())
    ensures errorLog.messages == old(errorLog.messages) + OrderKeyNotes(p.order)
  {
    if p.order.Some? {
      var po := p.order.value;
      if po.key.Some? {
        FieldMapsComplete();
        var name := SearchFieldMapsInverse(po.key.value, FieldMaps);
        if name.Some? {
          x.order := Some(x.order.value.(sortKey := name));
        } else {
          errorLog.AddAll([OrderNotAllowed(po.key.value)]);
        }
      }
      x.order := Some(x.order.value.(direction := Some(DirectionForXbmc(po.ascending))));
    }
    if p.matchAll.Some? {
      x.matching := Some(MatchAllForXbmc(p.matchAll.value));
    }
    if p.limit.Some? {
      x.limit := p.limit;
    }
  }

  /** The first part of convert(AgnosticSmartPlaylist, outputType,
      errorLog): the defaults, overridden by the agnostic settings, the type
      and the name. */
  method WriteSettings(p: AgnosticSmartPlaylist, version: XbmcVersion, errorLog: ErrorLog)
    returns (result: XbmcSmartPlaylist)
    modifies errorLog
    ensures fresh(result)
    ensures result.Value() == SettingsFromAgnostic(p.Value(), version) && result.rules == []
    ensures errorLog.messages == old(errorLog.messages) + OrderKeyNotes(p.order)
  {
    result := new XbmcSmartPlaylist(version);
    SetXbmcDefaults(result);
    OverrideFromAgnostic(result, p, errorLog);
    result.playlistType := KeyOf(PlaylistTypeTable, p.playlistType);
    result.name := p.name;
  }

  /** The loop of convert(AgnosticSmartPlaylist, outputType, errorLog): each
      rule in turn is converted and added to the playlist, or logged and
      left out. */
  method AddEncodedRules(result: XbmcSmartPlaylist, rules: seq<Rule>, errorLog: ErrorLog)
    requires Writable(rules)
    modifies result, errorLog
    ensures result.Value() == old(result.Value()).(rules := old(result.rules) + Kept(EncodeSteps(rules)))
    ensures errorLog.messages == old(errorLog.messages) + Notes(EncodeSteps(rules))
  {
    var added: seq<XbmcRule> := [];
    var i := 0;
    ghost var steps := [];
    while i < |rules|
      modifies errorLog
      invariant 0 <= i <= |rules|
      invariant Writable(rules[..i]) && steps == EncodeSteps(rules[..i])
      invariant added == Kept(steps)
      invariant errorLog.messages == old(errorLog.messages) + Notes(steps)
    {
      var step := EncodeRuleAsWritten(rules[i]);
      EncodeStepsSnoc(rules, i);
      StepAppended(old(errorLog.messages), steps, step);
      added := added + Kept([step]);
      errorLog.AddAll(step.notes);
      steps := steps + [step];
      i := i + 1;
    }
    assert rules[..i] == rules;
    result.rules := result.rules + added;
  }

  /** convert(AgnosticSmartPlaylist, outputType, errorLog): the settings,
      then the rules. */
  method FromAgnostic(p: AgnosticSmartPlaylist, version: XbmcVersion, errorLog: ErrorLog)
    returns (result: XbmcSmartPlaylist)
    requires Writable(p.rules)
    modifies errorLog
    ensures fresh(result)
    ensures result.Value() == Encoded(p.Value(), version)
    ensures errorLog.messages == old(errorLog.messages) + OrderKeyNotes(p.order) + Notes(EncodeSteps(p.rules))
  {
    ghost var pv := p.Value();
    result := WriteSettings(p, version, errorLog);
    ghost var settled := result.Value();
    assert settled == SettingsFromAgnostic(pv, version);
    AddEncodedRules(result, p.rules, errorLog);
    assert result.Value() == settled.(rules := Kept(EncodeSteps(pv.rules)));
  }

  /** Every rule convert drops is logged once, every rule it keeps not at all. */
  lemma {:induction false} EncodeLogsEachDroppedRule(rules: seq<Rule>)
    requires Writable(rules)
    ensures |Notes(EncodeSteps(rules))| == |rules| - |Kept(EncodeSteps(rules))|
  {
    OneNotePerDropCounts(EncodeSteps(rules));
  }

  // ----- Writing then reading

  /** What convert writes, convert reads back without a crash: every rule
      written has an operand. */
  lemma {:induction false} EncodedIsReadable(rules: seq<Rule>)
    requires Writable(rules)
    ensures Readable(Kept(EncodeSteps(rules)))
  {
    var steps := EncodeSteps(rules);
    KeptElements(steps);
    forall i | 0 <= i < |Kept(steps)| ensures Kept(steps)[i].operand.Some? {
      var x := Kept(steps)[i];
      assert x in Kept(steps);
      var j :| 0 <= j < |steps| && steps[j].kept == Some(x);
    }
  }

  /** An order written and read back: no order is the default one; otherwise
      its direction is kept, and its key too unless the key has no name or
      is the playlist, which both come back as title. */
  lemma {:induction false} OrderRoundTrip(order: Option<Order>)
    ensures var written := OrderFromAgnostic(XbmcDefaults(XbmcValue(V12, None, None, None, None, None, [])).order.value, order);
      var key := if order.Some? && FieldNameAny(order.value.key).Some? && order.value.key != Some(Playlist)
        then order.value.key else Some(Title);
      WithoutPlaylistKey(OrderFromXbmc(DefaultOrder, Some(written)))
        == if order.None? then DefaultOrder else Order(order.value.ascending, key)
  {
    NamedEntries();
    FieldRoundTrip(Textual, Title);
    CodecsRoundTrip(true, "");
    if order.Some? {
      CodecsRoundTrip(order.value.ascending, "");
      FieldNamesRoundTrip(None, order.value.key);
    }
  }

  /** The settings survive writing and reading back: type, name, the order
      as OrderRoundTrip says, the match and the limit, where a value left
      out comes back as the default. */
  lemma {:induction false} SettingsRoundTrip(p: AgnosticValue, version: XbmcVersion)
    requires Writable(p.rules)
    ensures var x := Encoded(p, version);
      Readable(x.rules)
      && var q := Decoded(x);
      && q.playlistType == p.playlistType && q.name == p.name
      && q.matchAll == Some(p.matchAll == Some(true))
      && q.limit == (if p.limit.Some? then p.limit else Some(DefaultLimit))
      && q.order == Some(WithoutPlaylistKey(OrderFromXbmc(DefaultOrder, x.order)))
  {
    EncodedIsReadable(p.rules);
    PlaylistTypeRoundTrip(p.playlistType);
    CodecsRoundTrip(true, "");
    if p.matchAll.Some? {
      CodecsRoundTrip(p.matchAll.value, "");
    }
  }

  /** A rule on a named field with an operator of its category is written
      with both names, and those names are read back as the field and the
      operator. */
  lemma {:induction false} NamedRule(c: Category, f: Field, o: Operator, operand: Operand, text: string)
    requires KeyOf(FieldTable(c), Some(f)).Some? && KeyOf(OperatorTable(c), Some(o)).Some?
    ensures var r := Rule(Some(f), Some(o), Some(operand));
      EncodeRule(r) == EncodeOperand(r, KeyOf(FieldTable(c), Some(f)), KeyOf(OperatorTable(c), Some(o)))
    ensures var w := XbmcRule(KeyOf(FieldTable(c), Some(f)), KeyOf(OperatorTable(c), Some(o)), Some(text));
      CategoryOfName(w.field) == Some(c) && Lookup(FieldTable(c), w.field) == Some(f)
      && Lookup(OperatorTable(c), w.operator) == Some(o)
  {
    FieldRoundTrip(c, f);
    OperatorRoundTrip(c, o);
  }

  /** A text rule on a named field other than the duration and the date
      fields, with an operator of its category, is written and read back
      as it was. */
  lemma {:induction false} TextRuleRoundTrip(c: Category, f: Field, o: Operator, text: string)
    requires c != Temporal && f != Duration
    requires KeyOf(FieldTable(c), Some(f)).Some? && KeyOf(OperatorTable(c), Some(o)).Some?
    ensures var r := Rule(Some(f), Some(o), Some(TextOperand(text)));
      var w := EncodeRule(r).kept;
      w.Some? && !ParsesOperand(w.value) && DecodeRule(w.value) == Step(Some(r), [])
  {
    var r := Rule(Some(f), Some(o), Some(TextOperand(text)));
    var w := XbmcRule(KeyOf(FieldTable(c), Some(f)), KeyOf(OperatorTable(c), Some(o)), Some(text));
    NamedRule(c, f, o, TextOperand(text), text);
    assert EncodeRule(r).kept == Some(w);
    assert !ParsesIn(c, f, Some(o));
    if c == Textual {
      assert DecodeRule(w) == WithOperator(f, Some(o), w, Some(TextOperand(text)));
    } else {
      assert DecodeRule(w) == WithOperator(f, Some(o), w, Some(TextOperand(text)));
    }
  }

  /** A duration rule is written with the duration as a clock text. */
  lemma {:induction false} DurationRuleWritten(o: Operator, span: Time.Span)
    requires KeyOf(NumberOperatorTable, Some(o)).Some?
    ensures EncodeRule(Rule(Some(Duration), Some(o), Some(PeriodOperand(span)))).kept
      == Some(XbmcRule(Some("time"), KeyOf(NumberOperatorTable, Some(o)), Some(FormatPeriod(span))))
  {
    var r := Rule(Some(Duration), Some(o), Some(PeriodOperand(span)));
    var operator := KeyOf(NumberOperatorTable, Some(o));
    FieldTableOneToOne(Numeric);
    LookupAt(NumberFieldTable, 2);
    assert KeyOf(NumberFieldTable, Some(Duration)) == Some("time");
    NamedRule(Numeric, Duration, o, PeriodOperand(span), "");
    assert EncodeRule(r) == EncodeOperand(r, Some("time"), operator);
  }

  /** A "time" rule whose operand reads as a period is read as a duration
      rule on that period. */
  lemma {:induction false} DurationRuleRead(o: Operator, text: string, t: Time.Span)
    requires KeyOf(NumberOperatorTable, Some(o)).Some?
    requires ParsePeriod(text) == TimeParse.Parsed(t)
    ensures DecodeRule(XbmcRule(Some("time"), KeyOf(NumberOperatorTable, Some(o)), Some(text)))
      == Step(Some(Rule(Some(Duration), Some(o), Some(PeriodOperand(t)))), [])
  {
    FieldTableOneToOne(Numeric);
    LookupAt(NumberFieldTable, 2);
    NamedRule(Numeric, Duration, o, PeriodOperand(t), text);
  }

  /** A duration of less than a day is written as a clock text and read
      back as the same duration, normalized. */
  lemma {:induction false} DurationRuleRoundTrip(o: Operator, span: Time.Span)
    requires KeyOf(NumberOperatorTable, Some(o)).Some?
    requires Time.NonNegative(span) && Time.TotalSeconds(span) < 86400
    ensures var r := Rule(Some(Duration), Some(o), Some(PeriodOperand(span)));
      var w := EncodeRule(r).kept;
      w.Some? && w.value.operand.Some?
      && DecodeRule(w.value) == Step(Some(Rule(Some(Duration), Some(o), Some(PeriodOperand(Time.NormalizeSpan(span))))), [])
  {
    DurationRuleWritten(o, span);
    PeriodRoundTrip(span);
    DurationRuleRead(o, FormatPeriod(span), Time.NormalizeSpan(span));
  }

  /** A last-played rule "in the last" or "not in the last" a length of time
      is written as "<n> <unit>" and read back as a span of the same length. */
  lemma {:induction false} LastPlayedRuleRoundTrip(o: Operator, span: Time.Span)
    requires o == InTheLast || o == NotInTheLast
    requires Time.NonNegative(span) && Time.LargestUnitOf(span, Time.Weeks).amount <= Text.IntMax
    ensures var r := Rule(Some(LastPlayed), Some(o), Some(PeriodOperand(span)));
      var w := EncodeRule(r).kept;
      w.Some? && w.value.operand.Some?
      && var back := DecodeRule(w.value).kept;
      back.Some? && back.value.field == Some(LastPlayed) && back.value.operator == Some(o)
      && back.value.operand.Some? && back.value.operand.value.PeriodOperand?
      && Time.TotalSeconds(back.value.operand.value.span) == Time.TotalSeconds(span)
  {
    NamedEntries();
    NamedRule(Temporal, LastPlayed, o, PeriodOperand(span), LastPlayedText(span));
    LastPlayedRoundTrip(span);
  }

  /** A last-played rule "before" or "after" a date is written as yyyy-MM-dd
      and read back as it was. */
  lemma {:induction false} DateRuleRoundTrip(o: Operator, d: Dates.Date)
    requires o == Before || o == After
    ensures var r := Rule(Some(LastPlayed), Some(o), Some(DateOperand(d)));
      var w := EncodeRule(r).kept;
      w.Some? && w.value.operand.Some? && DecodeRule(w.value) == Step(Some(r), [])
  {
    NamedEntries();
    NamedRule(Temporal, LastPlayed, o, DateOperand(d), FormatDate(d));
    DateRoundTrip(d);
  }
}
