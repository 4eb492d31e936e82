/** The older XBMC converter tools: one table of field names and one of
    operator names, Time.parse for time operands, yyyy-MM-dd for dates. The
    field this lineage calls TIME is the Duration field here. */
module LegacyXbmcTools {
  import opened Outcomes
  import Text
  import Time
  import TimeParse
  import Dates
  import opened Playlists
  import opened XbmcCodecs

  /** FIELD_MAP. */
  const FieldTable: seq<(string, Field)> := [
    ("genre", Genre), ("album", Album), ("artist", Artist), ("albumartist", AlbumArtist),
    ("title", Title), ("year", Year), ("time", Duration), ("tracknumber", TrackNumber),
    ("filename", FileName), ("path", Path), ("playcount", PlayCount), ("lastplayed", LastPlayed),
    ("rating", Rating), ("comment", Comment), ("playlist", Playlist)]

  /** OPERATOR_MAP. */
  const OperatorTable: seq<(string, Operator)> := [
    ("contains", Contains), ("doesnotcontain", DoesNotContain), ("is", Is), ("isnot", IsNot),
    ("startswith", StartsWith), ("endswith", EndsWith), ("lessthan", LessThan),
    ("greaterthan", GreaterThan), ("after", After), ("before", Before),
    ("inthelast", InTheLast), ("notinthelast", NotInTheLast)]

  /** FIELD_MAP.get: the field a name stands for, None for a missing name
      and for one the table lacks. */
  function FieldByName(name: Option<string>): Option<Field>
  {
    Lookup(FieldTable, name)
  }

  /** OPERATOR_MAP.get. */
  function OperatorByName(name: Option<string>): Option<Operator>
  {
    Lookup(OperatorTable, name)
  }

  /** FIELD_MAP.inverse().get: the name of a field, None for a missing
      field and for one the table lacks. */
  function FieldName(field: Option<Field>): Option<string>
  {
    KeyOf(FieldTable, field)
  }

  /** OPERATOR_MAP.inverse().get. */
  function OperatorName(operator: Option<Operator>): Option<string>
  {
    KeyOf(OperatorTable, operator)
  }

  /** Both tables are bijections, as a BiMap must be. */
  lemma FieldTableOneToOne()
    ensures OneToOne(FieldTable)
  {
  }

  lemma OperatorTableOneToOne()
    ensures OneToOne(OperatorTable)
  {
  }

  /** Each entry of the field table is found by its name and by its field. */
  lemma FieldEntry(i: nat)
    requires i < |FieldTable|
    ensures FieldByName(Some(FieldTable[i].0)) == Some(FieldTable[i].1)
    ensures FieldName(Some(FieldTable[i].1)) == Some(FieldTable[i].0)
  {
    FieldTableOneToOne();
    LookupAt(FieldTable, i);
  }

  lemma OperatorEntry(i: nat)
    requires i < |OperatorTable|
    ensures OperatorByName(Some(OperatorTable[i].0)) == Some(OperatorTable[i].1)
    ensures OperatorName(Some(OperatorTable[i].1)) == Some(OperatorTable[i].0)
  {
    OperatorTableOneToOne();
    LookupAt(OperatorTable, i);
  }

  /** Looking up the name of a field gives the field back; the fields
      without a name are the ones the table lacks. */
  lemma FieldNameRoundTrip(f: Field)
    ensures FieldName(Some(f)).Some? ==> FieldByName(FieldName(Some(f))) == Some(f)
    ensures FieldName(Some(f)).None? <==> f in {DiscNumber, DateAdded, Random}
  {
    if f in {DiscNumber, DateAdded, Random} {
      KeyOfFound(FieldTable, Some(f));
    } else {
      var i := match f
        case Genre => 0 case Album => 1 case Artist => 2 case AlbumArtist => 3 case Title => 4
        case Year => 5 case Duration => 6 case TrackNumber => 7 case FileName => 8 case Path => 9
        case PlayCount => 10 case LastPlayed => 11 case Rating => 12 case Comment => 13 case _ => 14;
      assert FieldTable[i].1 == f;
      FieldEntry(i);
    }
  }

  /** Every name in the field table is the name of the field it stands for. */
  lemma FieldByNameRoundTrip(name: Option<string>)
    ensures FieldByName(name).Some? ==> FieldName(FieldByName(name)) == name
  {
    FieldTableOneToOne();
    TableRoundTrip(FieldTable, name, None);
  }

  lemma OperatorNameRoundTrip(o: Operator)
    ensures OperatorName(Some(o)).Some? ==> OperatorByName(OperatorName(Some(o))) == Some(o)
    ensures OperatorName(Some(o)).None? <==> o in {LessThanOrEqual, GreaterThanOrEqual}
  {
    if o in {LessThanOrEqual, GreaterThanOrEqual} {
      KeyOfFound(OperatorTable, Some(o));
    } else {
      var i := match o
        case Contains => 0 case DoesNotContain => 1 case Is => 2 case IsNot => 3 case StartsWith => 4
        case EndsWith => 5 case LessThan => 6 case GreaterThan => 7 case After => 8 case Before => 9
        case InTheLast => 10 case _ => 11;
      assert OperatorTable[i].1 == o;
      OperatorEntry(i);
    }
  }

  lemma OperatorByNameRoundTrip(name: Option<string>)
    ensures OperatorByName(name).Some? ==> OperatorName(OperatorByName(name)) == name
  {
    OperatorTableOneToOne();
    TableRoundTrip(OperatorTable, name, None);
  }

  // ----- Reading an XBMC playlist

  /** Whether convertRule hands the operand to Time.parse or to the date
      format, both of which fail on a missing operand. */
  predicate ParsesOperand(r: XbmcRule)
  {
    var f, o := FieldByName(r.field), OperatorByName(r.operator);
    f.Some? && o.Some?
    && (f.value == Duration || (f.value == LastPlayed && o.value in {InTheLast, NotInTheLast, Before, After}))
  }

  /** Every rule whose operand is parsed has one. */
  predicate Readable(rules: seq<XbmcRule>)
  {
    forall i :: 0 <= i < |rules| ==> ParsesOperand(rules[i]) ==> rules[i].operand.Some?
  }

  /** Time.parse of an operand: the rule, or what is logged for the
      ParseException or for the NumberFormatException. */
  function TimeOperand(f: Field, o: Operator, text: string): Step<Rule, Diagnostic>
  {
    match TimeParse.ParseText(text)
    case Parsed(span) => Step(Some(Rule(Some(f), Some(o), Some(PeriodOperand(span)))), [])
    case Malformed(offset) => Step(None, [ParseFailure(TimeParse.FailureMessage(text), offset)])
    case BadNumber(token) => Step(None, [NotANumber(token)])
  }

  /** DATE_FORMAT.parse of an operand: the rule, or what is logged for the
      ParseException. */
  function DateOperandOf(f: Field, o: Operator, text: string): Step<Rule, Diagnostic>
  {
    match ParseDate(text)
    case Ok(d) => Step(Some(Rule(Some(f), Some(o), Some(DateOperand(d)))), [])
    case Err(offset) => Step(None, [ParseFailure(Dates.FailureMessage(text), offset)])
  }

  /** convertRule, together with what convert does with its exceptions: the
      canonical rule, or the one message logged when the rule is dropped. */
  function DecodeRule(r: XbmcRule): (st: Step<Rule, Diagnostic>)
    requires ParsesOperand(r) ==> r.operand.Some?
    ensures |st.notes| == if st.kept.Some? then 0 else 1
  {
    match FieldByName(r.field)
    case None => Step(None, [UnknownField(r.field)])
    case Some(f) =>
      match OperatorByName(r.operator)
      case None => Step(None, [UnknownOperator(r.operator)])
      case Some(o) =>
        if f == LastPlayed then
          if o == InTheLast || o == NotInTheLast then TimeOperand(f, o, r.operand.value)
          else if o == Before || o == After then DateOperandOf(f, o, r.operand.value)
          else Step(None, [CombinationNotAllowed(Some(f))])
        else if f == Duration then TimeOperand(f, o, r.operand.value)
        else
          var operand := if r.operand.Some? then Some(TextOperand(r.operand.value)) else None;
          Step(Some(Rule(Some(f), Some(o), operand)), [])
  }

  /** A rule whose field or operator name is not in the tables is dropped
      with a message naming it; a rule that is kept has the field and
      operator the tables give for its names. */
  lemma DecodeRuleNames(r: XbmcRule)
    requires ParsesOperand(r) ==> r.operand.Some?
    ensures var st := DecodeRule(r);
      && (FieldByName(r.field).None? ==> st == Step(None, [UnknownField(r.field)]))
      && (FieldByName(r.field).Some? && OperatorByName(r.operator).None?
          ==> st == Step(None, [UnknownOperator(r.operator)]))
      && (st.kept.Some? ==>
          st.kept.value.field == FieldByName(r.field) && st.kept.value.operator == OperatorByName(r.operator))
  {
    match FieldByName(r.field)
    case None =>
    case Some(f) =>
      match OperatorByName(r.operator)
      case None =>
      case Some(o) =>
        if f == LastPlayed && o in {InTheLast, NotInTheLast} {
          assert DecodeRule(r) == TimeOperand(f, o, r.operand.value);
        } else if f == LastPlayed && o in {Before, After} {
          assert DecodeRule(r) == DateOperandOf(f, o, r.operand.value);
        } else if f == Duration {
          assert DecodeRule(r) == TimeOperand(f, o, r.operand.value);
        }
  }

  /** The passes of convert's loop over the rules. */
  function DecodeSteps(rules: seq<XbmcRule>): (steps: seq<Step<Rule, Diagnostic>>)
    requires Readable(rules)
    ensures |steps| == |rules|
    ensures forall i :: 0 <= i < |rules| ==> steps[i] == DecodeRule(rules[i])
  {
    if rules == [] then []
    else
      var init := rules[..|rules| - 1];
      assert Readable(init) by {
        forall i | 0 <= i < |init| ensures ParsesOperand(init[i]) ==> init[i].operand.Some? {
          assert init[i] == rules[i];
        }
      }
      DecodeSteps(init) + [DecodeRule(rules[|rules| - 1])]
  }

  /** The passes over one more rule are those over the rules before it and
      one more. */
  lemma DecodeStepsSnoc(rules: seq<XbmcRule>, i: nat)
    requires Readable(rules) && i < |rules|
    ensures Readable(rules[..i]) && Readable(rules[..i + 1])
    ensures DecodeSteps(rules[..i + 1]) == DecodeSteps(rules[..i]) + [DecodeRule(rules[i])]
  {
    assert rules[..i + 1][..i] == rules[..i];
  }

  /** The order convert sets: the direction and sort key given, "" and
      "title" standing in for missing ones; a sort key that names no field
      leaves the key unset. */
  function DecodedOrder(order: Option<XbmcOrder>): Order
  {
    var direction := if order.Some? && order.value.direction.Some? then order.value.direction.value else "";
    var sortKey := if order.Some? && order.value.sortKey.Some? then order.value.sortKey else FieldName(Some(Title));
    Order(AscendingFromXbmc(direction), FieldByName(sortKey))
  }

  /** What convert(XbmcSmartPlaylist, errorLog) returns. */
  function Decoded(x: XbmcValue): AgnosticValue
    requires x.matching.Some? && Readable(x.rules)
  {
    AgnosticValue(None, x.name, Some(MatchAllFromXbmc(x.matching.value)), x.limit,
      Some(DecodedOrder(x.order)), Kept(DecodeSteps(x.rules)))
  }

  /** convert(XbmcSmartPlaylist, errorLog): the name and match are copied,
      each rule converted in turn (a rule that cannot be converted is logged
      and left out), then the order and the limit are set. */
  method ToAgnostic(x: XbmcSmartPlaylist, errorLog: ErrorLog) returns (result: AgnosticSmartPlaylist)
    requires x.matching.Some? && Readable(x.rules)
    modifies errorLog
    ensures fresh(result)
    ensures result.Value() == Decoded(x.Value())
    ensures errorLog.messages == old(errorLog.messages) + Notes(DecodeSteps(x.rules))
  {
    result := new AgnosticSmartPlaylist();
    result.name := x.name;
    var matchAll := MatchAllFromXbmc(x.matching.value);
    result.matchAll := Some(matchAll);
    var i := 0;
    ghost var steps := [];
    while i < |x.rules|
      invariant 0 <= i <= |x.rules|
      invariant Readable(x.rules[..i]) && steps == DecodeSteps(x.rules[..i])
      invariant result.Value() == AgnosticValue(None, x.name, Some(matchAll), None, None, Kept(steps))
      invariant errorLog.messages == old(errorLog.messages) + Notes(steps)
    {
      var step := DecodeRule(x.rules[i]);
      DecodeStepsSnoc(x.rules, i);
      StepAppended(old(errorLog.messages), steps, step);
      result.rules := result.rules + Kept([step]);
      errorLog.AddAll(step.notes);
      steps := steps + [step];
      i := i + 1;
    }
    assert x.rules[..i] == x.rules;
    var order := DecodedOrder(x.order);
    result.order := Some(order);
    result.limit := x.limit;
    assert result.Value() == AgnosticValue(None, x.name, Some(matchAll), x.limit, Some(order), Kept(steps));
    assert x.Value().rules == x.rules && x.Value().order == x.order && x.Value().matching == x.matching;
  }

  /** Every rule convert drops is logged once, every rule it keeps not at all;
      the rules it keeps are converted in input order. */
  lemma DecodeLogsEachDroppedRule(rules: seq<XbmcRule>, i: nat)
    requires Readable(rules) && i < |rules|
    ensures var steps := DecodeSteps(rules);
      |Notes(steps)| == |rules| - |Kept(steps)|
      && (DecodeRule(rules[i]).kept.Some? ==>
            Kept(steps) == Kept(steps[..i]) + [DecodeRule(rules[i]).kept.value] + Kept(steps[i + 1..]))
  {
    var steps := DecodeSteps(rules);
    OneNotePerDropCounts(steps);
    if DecodeRule(rules[i]).kept.Some? {
      KeptContains(steps, i);
    }
  }

  // ----- Writing an XBMC playlist

  /** Every rule has an operand, which convertRule dereferences. */
  predicate Writable(rules: seq<Rule>)
  {
    forall i :: 0 <= i < |rules| ==> rules[i].operand.Some?
  }

  /** convertRule(ruleType, rule, errorLog), with what convert does with its
      exception: the XBMC rule, or the one message logged when the rule is
      dropped. Field and operator names are looked up without a check, so
      either may be missing from the result. */
  function EncodeRule(r: Rule): (st: Step<XbmcRule, Diagnostic>)
    requires r.operand.Some?
    ensures |st.notes| == if st.kept.Some? then 0 else 1
    ensures st.kept.Some? ==>
      st.kept.value.field == FieldName(r.field) && st.kept.value.operator == OperatorName(r.operator)
      && st.kept.value.operand.Some?
    ensures st.kept.None? <==> r.operand.value.PeriodOperand? && r.field !in {Some(LastPlayed), Some(Duration)}
  {
    var field, operator := FieldName(r.field), OperatorName(r.operator);
    match r.operand.value
    case TextOperand(text) => Step(Some(XbmcRule(field, operator, Some(text))), [])
    case PeriodOperand(span) =>
      if r.field == Some(LastPlayed) then Step(Some(XbmcRule(field, operator, Some(LastPlayedText(span)))), [])
      else if r.field == Some(Duration) then Step(Some(XbmcRule(field, operator, Some(DurationText(span)))), [])
      else Step(None, [CombinationNotAllowed(r.field)])
    case DateOperand(d) => Step(Some(XbmcRule(field, operator, Some(FormatDate(d)))), [])
  }

  function EncodeSteps(rules: seq<Rule>): (steps: seq<Step<XbmcRule, Diagnostic>>)
    requires Writable(rules)
    ensures |steps| == |rules|
    ensures forall i :: 0 <= i < |rules| ==> steps[i] == EncodeRule(rules[i])
  {
    if rules == [] then []
    else
      var init := rules[..|rules| - 1];
      assert Writable(init) by {
        forall i | 0 <= i < |init| ensures init[i].operand.Some? {
          assert init[i] == rules[i];
        }
      }
      EncodeSteps(init) + [EncodeRule(rules[|rules| - 1])]
  }

  lemma EncodeStepsSnoc(rules: seq<Rule>, i: nat)
    requires Writable(rules) && i < |rules|
    ensures Writable(rules[..i]) && Writable(rules[..i + 1])
    ensures EncodeSteps(rules[..i + 1]) == EncodeSteps(rules[..i]) + [EncodeRule(rules[i])]
  {
    assert rules[..i + 1][..i] == rules[..i];
  }

  /** The order convert writes: the direction and the name of the key. */
  function EncodedOrder(order: Order): XbmcOrder
  {
    XbmcOrder(Some(DirectionForXbmc(order.ascending)), FieldName(order.key))
  }

  /** What convert(AgnosticSmartPlaylist, outputType, errorLog) returns. */
  function Encoded(p: AgnosticValue, version: XbmcVersion): XbmcValue
    requires p.matchAll.Some? && p.order.Some? && Writable(p.rules)
  {
    XbmcValue(version, None, p.name, Some(MatchAllForXbmc(p.matchAll.value)), p.limit,
      Some(EncodedOrder(p.order.value)), Kept(EncodeSteps(p.rules)))
  }

  /** convert(AgnosticSmartPlaylist, outputType, errorLog): name and match,
      each rule in turn (a rule that cannot be converted is logged and left
      out), then the order and the limit. */
  method FromAgnostic(p: AgnosticSmartPlaylist, version: XbmcVersion, errorLog: ErrorLog)
    returns (result: XbmcSmartPlaylist)
    requires p.matchAll.Some? && p.order.Some? && Writable(p.rules)
    modifies errorLog
    ensures fresh(result)
    ensures result.Value() == Encoded(p.Value(), version)
    ensures errorLog.messages == old(errorLog.messages) + Notes(EncodeSteps(p.rules))
  {
    result := new XbmcSmartPlaylist(version);
    result.name := p.name;
    var matching := MatchAllForXbmc(p.matchAll.value);
    result.matching := Some(matching);
    var i := 0;
    ghost var steps := [];
    while i < |p.rules|
      invariant 0 <= i <= |p.rules|
      invariant Writable(p.rules[..i]) && steps == EncodeSteps(p.rules[..i])
      invariant result.Value() == XbmcValue(version, None, p.name, Some(matching), None, None, Kept(steps))
      invariant errorLog.messages == old(errorLog.messages) + Notes(steps)
    {
      var step := EncodeRule(p.rules[i]);
      EncodeStepsSnoc(p.rules, i);
      StepAppended(old(errorLog.messages), steps, step);
      result.rules := result.rules + Kept([step]);
      errorLog.AddAll(step.notes);
      steps := steps + [step];
      i := i + 1;
    }
    assert p.rules[..i] == p.rules;
    var order := EncodedOrder(p.order.value);
    result.order := Some(order);
    result.limit := p.limit;
    assert result.Value() == XbmcValue(version, None, p.name, Some(matching), p.limit, Some(order), Kept(steps));
    assert p.Value().rules == p.rules && p.Value().order == p.order && p.Value().matchAll == p.matchAll;
  }

  /** Every rule convert drops is logged once; a time operand is dropped
      exactly when it is on neither the last-played nor the duration field. */
  lemma EncodeLogsEachDroppedRule(rules: seq<Rule>)
    requires Writable(rules)
    ensures |Notes(EncodeSteps(rules))| == |rules| - |Kept(EncodeSteps(rules))|
  {
    OneNotePerDropCounts(EncodeSteps(rules));
  }

  // ----- Writing then reading

  /** What convert writes, convert reads back without a crash: every rule
      written has an operand. */
  lemma EncodedIsReadable(rules: seq<Rule>)
    requires Writable(rules)
    ensures Readable(Kept(EncodeSteps(rules)))
  {
    var steps := EncodeSteps(rules);
    KeptElements(steps);
    forall i | 0 <= i < |Kept(steps)| ensures Kept(steps)[i].operand.Some? {
      var x := Kept(steps)[i];
      assert x in Kept(steps);
      var j :| 0 <= j < |steps| && steps[j].kept == Some(x);
    }
  }

  /** Reading a rule written with the names of a time field and an operator
      that field takes parses its operand with Time.parse. */
  lemma DecodeTimeRule(f: Field, o: Operator, text: string)
    requires (f == Duration && OperatorName(Some(o)).Some?) || (f == LastPlayed && o in {InTheLast, NotInTheLast})
    ensures DecodeRule(XbmcRule(FieldName(Some(f)), OperatorName(Some(o)), Some(text))) == TimeOperand(f, o, text)
  {
    FieldNameRoundTrip(f);
    OperatorNameRoundTrip(o);
  }

  /** Reading a last-played rule "before" or "after" parses its operand as a
      date. */
  lemma DecodeDateRule(o: Operator, text: string)
    requires o == Before || o == After
    ensures DecodeRule(XbmcRule(FieldName(Some(LastPlayed)), OperatorName(Some(o)), Some(text)))
      == DateOperandOf(LastPlayed, o, text)
  {
    FieldNameRoundTrip(LastPlayed);
    OperatorNameRoundTrip(o);
  }

  /** The playlist settings survive writing and reading back: name, match,
      limit and the order, as long as the order key is a field the table
      names. */
  lemma SettingsRoundTrip(p: AgnosticValue, version: XbmcVersion)
    requires p.matchAll.Some? && p.order.Some? && Writable(p.rules)
    requires FieldName(p.order.value.key).Some?
    ensures var x := Encoded(p, version);
      Readable(x.rules) && x.matching.Some?
      && var q := Decoded(x);
      q.name == p.name && q.matchAll == p.matchAll && q.limit == p.limit && q.order == p.order
  {
    EncodedIsReadable(p.rules);
    FieldNameRoundTrip(p.order.value.key.value);
    CodecsRoundTrip(p.matchAll.value, "");
    CodecsRoundTrip(p.order.value.ascending, "");
  }

  /** A text rule on a field and with an operator the tables name, on any
      field but last played and duration, is written and read back as it was. */
  lemma TextRuleRoundTrip(f: Field, o: Operator, text: string)
    requires FieldName(Some(f)).Some? && OperatorName(Some(o)).Some? && f != LastPlayed && f != Duration
    ensures var r := Rule(Some(f), Some(o), Some(TextOperand(text)));
      var w := EncodeRule(r).kept;
      w.Some? && !ParsesOperand(w.value) && DecodeRule(w.value) == Step(Some(r), [])
  {
    FieldNameRoundTrip(f);
    OperatorNameRoundTrip(o);
  }

  /** A duration rule is written as a clock text and read back as the part
      of the time below a day: unchanged, once normalized, when it is
      shorter than a day. */
  lemma DurationRuleRoundTrip(o: Operator, span: Time.Span)
    requires OperatorName(Some(o)).Some? && Time.NonNegative(span)
    ensures var r := Rule(Some(Duration), Some(o), Some(PeriodOperand(span)));
      var w := EncodeRule(r).kept;
      var back := Time.NormalizeSpan(span).(weeks := 0, days := 0);
      w.Some? && w.value.operand.Some?
      && DecodeRule(w.value) == Step(Some(Rule(Some(Duration), Some(o), Some(PeriodOperand(back)))), [])
      && Time.TotalSeconds(back) == Time.TotalSeconds(span) % 86400
  {
    var r := Rule(Some(Duration), Some(o), Some(PeriodOperand(span)));
    var text := DurationText(span);
    assert EncodeRule(r).kept == Some(XbmcRule(FieldName(Some(Duration)), OperatorName(Some(o)), Some(text)));
    DecodeTimeRule(Duration, o, text);
    DurationRoundTrip(span);
  }


  /** A last-played rule "in the last" or "not in the last" a length of time
      is written as "<n> <unit>" and read back as a span of the same length. */
  lemma LastPlayedRuleRoundTrip(o: Operator, span: Time.Span)
    requires o == InTheLast || o == NotInTheLast
    requires Time.NonNegative(span) && Time.LargestUnitOf(span, Time.Weeks).amount <= Text.IntMax
    ensures var r := Rule(Some(LastPlayed), Some(o), Some(PeriodOperand(span)));
      var w := EncodeRule(r).kept;
      w.Some? && w.value.operand.Some?
      && var back := DecodeRule(w.value).kept;
      back.Some? && back.value.field == Some(LastPlayed) && back.value.operator == Some(o)
      && back.value.operand.Some? && back.value.operand.value.PeriodOperand?
      && Time.TotalSeconds(back.value.operand.value.span) == Time.TotalSeconds(span)
  {
    var r := Rule(Some(LastPlayed), Some(o), Some(PeriodOperand(span)));
    var text := LastPlayedText(span);
    assert EncodeRule(r).kept == Some(XbmcRule(FieldName(Some(LastPlayed)), OperatorName(Some(o)), Some(text)));
    DecodeTimeRule(LastPlayed, o, text);
    LastPlayedRoundTrip(span);
  }


  /** A last-played rule "before" or "after" a date is written as yyyy-MM-dd
      and read back as it was. */
  lemma DateRuleRoundTrip(o: Operator, d: Dates.Date)
    requires o == Before || o == After
    ensures var r := Rule(Some(LastPlayed), Some(o), Some(DateOperand(d)));
      var w := EncodeRule(r).kept;
      w.Some? && w.value.operand.Some? && DecodeRule(w.value) == Step(Some(r), [])
  {
    var r := Rule(Some(LastPlayed), Some(o), Some(DateOperand(d)));
    var text := FormatDate(d);
    assert EncodeRule(r).kept == Some(XbmcRule(FieldName(Some(LastPlayed)), OperatorName(Some(o)), Some(text)));
    DecodeDateRule(o, text);
    DateRoundTrip(d);
  }

}
