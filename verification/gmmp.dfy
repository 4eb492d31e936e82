/** The GMMP converter. GMMP playlists number everything: each kind of field
    (string, number, date) has its own field codes and its own operator
    codes, and sort keys and time units have codes too. A rule's value is a
    text, a date written yyyy/MM/dd, or an amount of time counted in the
    unit its time unit code names. */
module Gmmp {
  import opened Outcomes
  import Text
  import Time
  import Dates
  import opened Playlists

  // ----- The tables

  /** STRING_FIELD_MAP. */
  const StringFieldTable: seq<(int, Field)> :=
    [(0, Artist), (1, AlbumArtist), (2, Title), (3, Album), (4, Genre), (5, FileName)]

  /** NUMBER_FIELD_MAP; the duration is counted in time units. */
  const NumberFieldTable: seq<(int, Field)> :=
    [(6, Year), (7, Duration), (8, Rating), (9, PlayCount), (12, TrackNumber), (13, DiscNumber)]

  /** DATE_FIELD_MAP. */
  const DateFieldTable: seq<(int, Field)> := [(10, DateAdded), (11, LastPlayed)]

  /** STRING_OPERATOR_MAP. */
  const StringOperatorTable: seq<(int, Operator)> :=
    [(0, Is), (1, IsNot), (2, Contains), (3, DoesNotContain), (4, StartsWith), (5, EndsWith)]

  /** NUMBER_OPERATOR_MAP. */
  const NumberOperatorTable: seq<(int, Operator)> :=
    [(0, Is), (1, IsNot), (2, GreaterThan), (3, GreaterThanOrEqual), (4, LessThan), (5, LessThanOrEqual)]

  /** DATE_OPERATOR_MAP; 2 and 3 count back a length of time. */
  const DateOperatorTable: seq<(int, Operator)> :=
    [(0, After), (1, Before), (2, InTheLast), (3, NotInTheLast)]

  /** ORDER_BY_MAP. */
  const OrderTable: seq<(int, Field)> := [
    (0, Random), (1, Artist), (2, AlbumArtist), (3, Title), (4, Album), (5, Genre), (6, FileName),
    (7, Year), (8, Duration), (9, Rating), (10, PlayCount), (11, DateAdded), (12, LastPlayed),
    (13, TrackNumber), (14, DiscNumber)]

  /** TIME_UNIT_MAP: -1 stands for no unit, and GMMP has no weeks. */
  const TimeUnitTable: seq<(int, Option<Time.TimeUnit>)> :=
    [(-1, None), (0, Some(Time.Seconds)), (1, Some(Time.Minutes)), (2, Some(Time.Hours)), (3, Some(Time.Days))]

  function FieldTable(c: Category): seq<(int, Field)>
  {
    match c
    case Textual => StringFieldTable
    case Numeric => NumberFieldTable
    case Temporal => DateFieldTable
  }

  function OperatorTable(c: Category): seq<(int, Operator)>
  {
    match c
    case Textual => StringOperatorTable
    case Numeric => NumberOperatorTable
    case Temporal => DateOperatorTable
  }

  /** Every table is a bijection, as a BiMap must be. */
  lemma {:induction false} TablesOneToOne(c: Category)
    ensures OneToOne(FieldTable(c)) && OneToOne(OperatorTable(c))
    ensures OneToOne(OrderTable) && OneToOne(TimeUnitTable)
  {
    OrderTableOneToOne();
    UnitTableOneToOne();
    match c
    case Textual => TextualTablesOneToOne();
    case Numeric => NumericTablesOneToOne();
    case Temporal => TemporalTablesOneToOne();
  }

  lemma OrderTableOneToOne()
    ensures OneToOne(OrderTable)
  {
  }

  lemma UnitTableOneToOne()
    ensures OneToOne(TimeUnitTable)
  {
  }

  lemma TextualTablesOneToOne()
    ensures OneToOne(StringFieldTable) && OneToOne(StringOperatorTable)
  {
  }

  lemma NumericTablesOneToOne()
    ensures OneToOne(NumberFieldTable) && OneToOne(NumberOperatorTable)
  {
  }

  lemma TemporalTablesOneToOne()
    ensures OneToOne(DateFieldTable) && OneToOne(DateOperatorTable)
  {
  }

  /** No field code and no field is in two of the field tables. */
  lemma FieldTablesDisjoint()
    ensures Disjoint(StringFieldTable, NumberFieldTable)
    ensures Disjoint(StringFieldTable, DateFieldTable)
    ensures Disjoint(NumberFieldTable, DateFieldTable)
  {
  }

  lemma {:induction false} CategoriesDisjoint(c: Category, d: Category)
    requires c != d
    ensures Disjoint(FieldTable(c), FieldTable(d))
  {
    FieldTablesDisjoint();
    match (c, d)
    case (Numeric, Textual) => DisjointSymmetric(StringFieldTable, NumberFieldTable);
    case (Temporal, Textual) => DisjointSymmetric(StringFieldTable, DateFieldTable);
    case (Temporal, Numeric) => DisjointSymmetric(NumberFieldTable, DateFieldTable);
    case _ =>
  }

  /** The codes of the field tables. */
  lemma {:induction false} FieldCodes(code: int)
    ensures Lookup(StringFieldTable, Some(code)).Some? <==> 0 <= code <= 5
    ensures Lookup(NumberFieldTable, Some(code)).Some? <==> 6 <= code <= 9 || 12 <= code <= 13
    ensures Lookup(DateFieldTable, Some(code)).Some? <==> 10 <= code <= 11
  {
    LookupHas(StringFieldTable, code);
    LookupHas(NumberFieldTable, code);
    LookupHas(DateFieldTable, code);
    if 0 <= code <= 5 {
      assert StringFieldTable[code].0 == code;
    } else if 6 <= code <= 9 {
      assert NumberFieldTable[code - 6].0 == code;
    } else if 12 <= code <= 13 {
      assert NumberFieldTable[code - 8].0 == code;
    } else if 10 <= code <= 11 {
      assert DateFieldTable[code - 10].0 == code;
    }
  }

  /** The fields the field tables hold: all but the random order, the path,
      the comment and the playlist. */
  lemma {:induction false} FieldsWithCodes(field: Option<Field>)
    ensures (KeyOf(StringFieldTable, field).Some? || KeyOf(NumberFieldTable, field).Some?
             || KeyOf(DateFieldTable, field).Some?)
        <==> field.Some? && field.value !in {Random, Path, Comment, Playlist}
  {
    KeyOfFound(StringFieldTable, field);
    KeyOfFound(NumberFieldTable, field);
    KeyOfFound(DateFieldTable, field);
    if field.Some? {
      match field.value
      case Artist => assert StringFieldTable[0].1 == Artist;
      case AlbumArtist => assert StringFieldTable[1].1 == AlbumArtist;
      case Title => assert StringFieldTable[2].1 == Title;
      case Album => assert StringFieldTable[3].1 == Album;
      case Genre => assert StringFieldTable[4].1 == Genre;
      case FileName => assert StringFieldTable[5].1 == FileName;
      case Year => assert NumberFieldTable[0].1 == Year;
      case Duration => assert NumberFieldTable[1].1 == Duration;
      case Rating => assert NumberFieldTable[2].1 == Rating;
      case PlayCount => assert NumberFieldTable[3].1 == PlayCount;
      case TrackNumber => assert NumberFieldTable[4].1 == TrackNumber;
      case DiscNumber => assert NumberFieldTable[5].1 == DiscNumber;
      case DateAdded => assert DateFieldTable[0].1 == DateAdded;
      case LastPlayed => assert DateFieldTable[1].1 == LastPlayed;
      case _ =>
    }
  }

  /** The category of a field code, trying the string codes, then the number
      codes, then the date codes, as convert does: 0 to 5 are string fields,
      6 to 9, 12 and 13 number fields, 10 and 11 date fields, and no other
      code is a field. */
  function CategoryOfCode(code: int): (c: Option<Category>)
    ensures c == Some(Textual) <==> 0 <= code <= 5
    ensures c == Some(Numeric) <==> 6 <= code <= 9 || 12 <= code <= 13
    ensures c == Some(Temporal) <==> 10 <= code <= 11
    ensures c.Some? ==> Lookup(FieldTable(c.value), Some(code)).Some?
  {
    FieldCodes(code);
    if Lookup(StringFieldTable, Some(code)).Some? then Some(Textual)
    else if Lookup(NumberFieldTable, Some(code)).Some? then Some(Numeric)
    else if Lookup(DateFieldTable, Some(code)).Some? then Some(Temporal)
    else None
  }

  /** The category of a field, tried in the same order on the values: the
      random order, the path, the comment and the playlist have none. */
  function CategoryOfField(field: Option<Field>): (c: Option<Category>)
    ensures c.Some? ==> KeyOf(FieldTable(c.value), field).Some?
    ensures c.None? <==> field.None? || field.value in {Random, Path, Comment, Playlist}
  {
    FieldsWithCodes(field);
    if KeyOf(StringFieldTable, field).Some? then Some(Textual)
    else if KeyOf(NumberFieldTable, field).Some? then Some(Numeric)
    else if KeyOf(DateFieldTable, field).Some? then Some(Temporal)
    else None
  }

  /** A code in one field table is in no other, so the order the tables are
      tried in does not matter. */
  lemma {:induction false} CodeInOneCategory(c: Category, code: int)
    requires Lookup(FieldTable(c), Some(code)).Some?
    ensures CategoryOfCode(code) == Some(c)
  {
    forall d | d != c ensures Lookup(FieldTable(d), Some(code)).None? {
      CategoriesDisjoint(c, d);
      DisjointLookups(FieldTable(c), FieldTable(d), Some(code), None);
    }
  }

  lemma {:induction false} FieldInOneCategory(c: Category, field: Option<Field>)
    requires KeyOf(FieldTable(c), field).Some?
    ensures CategoryOfField(field) == Some(c)
  {
    forall d | d != c ensures KeyOf(FieldTable(d), field).None? {
      CategoriesDisjoint(c, d);
      DisjointLookups(FieldTable(c), FieldTable(d), None, field);
    }
  }

  /** A field with a code in a table, and an operator with a code in the
      same category's table, are read back from their codes, in that
      category. */
  lemma {:induction false} CodesRoundTrip(c: Category, f: Field, o: Operator)
    requires KeyOf(FieldTable(c), Some(f)).Some? && KeyOf(OperatorTable(c), Some(o)).Some?
    ensures var code := KeyOf(FieldTable(c), Some(f)).value;
      CategoryOfField(Some(f)) == Some(c) && CategoryOfCode(code) == Some(c)
      && Lookup(FieldTable(c), Some(code)) == Some(f)
      && Lookup(OperatorTable(c), KeyOf(OperatorTable(c), Some(o))) == Some(o)
  {
    var code := KeyOf(FieldTable(c), Some(f)).value;
    TablesOneToOne(c);
    TableRoundTrip(FieldTable(c), None, Some(f));
    TableRoundTrip(OperatorTable(c), None, Some(o));
    FieldInOneCategory(c, Some(f));
    CodeInOneCategory(c, code);
  }

  /** The entries of the time unit table: -1 for no unit, then each unit
      from seconds to days at its rank. */
  lemma {:induction false} UnitCodes(code: int)
    ensures -1 <= code <= 3 ==> Lookup(TimeUnitTable, Some(code)) == Some(TimeUnitTable[code + 1].1)
    ensures !(-1 <= code <= 3) ==> Lookup(TimeUnitTable, Some(code)).None?
    ensures 0 <= code <= 3 ==> TimeUnitTable[code + 1].1.Some? && Time.Rank(TimeUnitTable[code + 1].1.value) == code
    ensures TimeUnitTable[0].1.None?
  {
    LookupHas(TimeUnitTable, code);
    if -1 <= code <= 3 {
      TablesOneToOne(Textual);
      assert TimeUnitTable[code + 1].0 == code;
      LookupAt(TimeUnitTable, code + 1);
    }
  }

  lemma {:induction false} UnitsWithCodes(u: Option<Time.TimeUnit>)
    ensures KeyOf(TimeUnitTable, Some(u)).Some? <==> u != Some(Time.Weeks)
    ensures u.None? ==> KeyOf(TimeUnitTable, Some(u)) == Some(-1)
  {
    KeyOfFound(TimeUnitTable, Some(u));
    TablesOneToOne(Textual);
    match u
    case None => LookupAt(TimeUnitTable, 0);
    case Some(Seconds) => assert TimeUnitTable[1].1 == u;
    case Some(Minutes) => assert TimeUnitTable[2].1 == u;
    case Some(Hours) => assert TimeUnitTable[3].1 == u;
    case Some(Days) => assert TimeUnitTable[4].1 == u;
    case Some(Weeks) =>
  }

  /** TIME_UNIT_MAP.get: the unit a code stands for, None both for -1 (no
      unit) and for a code the table lacks. A unit's code is its rank. */
  function UnitByCode(code: int): (u: Option<Time.TimeUnit>)
    ensures u.Some? <==> 0 <= code <= 3
    ensures u.Some? ==> Time.Rank(u.value) == code
  {
    UnitCodes(code);
    var found := Lookup(TimeUnitTable, Some(code));
    if found.Some? then found.value else None
  }

  /** TIME_UNIT_MAP.inverse().get: the code of a unit, -1 for no unit, and
      none for weeks. */
  function UnitCode(u: Option<Time.TimeUnit>): (code: Option<int>)
    ensures code.Some? <==> u != Some(Time.Weeks)
    ensures u.None? ==> code == Some(-1)
  {
    UnitsWithCodes(u);
    KeyOf(TimeUnitTable, Some(u))
  }

  /** Every unit but weeks is read back from its code. */
  lemma {:induction false} UnitRoundTrip(u: Time.TimeUnit)
    requires u != Time.Weeks
    ensures UnitCode(Some(u)).Some? && UnitByCode(UnitCode(Some(u)).value) == Some(u)
  {
    TablesOneToOne(Textual);
    TableRoundTrip(TimeUnitTable, None, Some(Some(u)));
  }

  // ----- Reading a GMMP playlist

  function TextOf(value: Option<string>): Option<Operand>
  {
    match value
    case None => None
    case Some(text) => Some(TextOperand(text))
  }

  /** A period read from a rule, once Integer.parseInt has read the amount:
      a negative amount, or a unit code standing for no unit, is logged and
      leaves the operand unset. */
  function PeriodRead(amount: int, unitCode: int): (r: (Option<Operand>, seq<Diagnostic>))
    ensures r.0.Some? <==> amount >= 0 && 0 <= unitCode <= 3
    ensures |r.1| == if r.0.Some? then 0 else 1
  {
    if amount < 0 then (None, [NegativeTime(amount)])
    else
      match UnitByCode(unitCode)
      case None => (None, [InvalidTimeUnit(unitCode)])
      case Some(unit) => (Some(PeriodOperand(PeriodOf(amount, unit))), [])
  }

  /** Whether convert reads a rule's value as an amount of time: a duration,
      or a date field with "in the last" or "not in the last". */
  predicate ReadsPeriod(r: GmmpRule)
  {
    match CategoryOfCode(r.field)
    case Some(Numeric) => Lookup(NumberFieldTable, Some(r.field)) == Some(Duration)
    case Some(Temporal) => Lookup(DateOperatorTable, Some(r.operator)) in {Some(InTheLast), Some(NotInTheLast)}
    case _ => false
  }

  /** Whether convert reads a rule's value as a date: a date field with
      "before" or "after". */
  predicate ReadsDate(r: GmmpRule)
  {
    CategoryOfCode(r.field) == Some(Temporal) && Lookup(DateOperatorTable, Some(r.operator)) in {Some(Before), Some(After)}
  }

  /** A rule convert reads without crashing: a value read as an amount is a
      number Integer.parseInt accepts, and a value read as a date is there. */
  predicate Convertible(r: GmmpRule)
  {
    (ReadsPeriod(r) ==> r.value.Some? && Text.ParseInt(r.value.value).Some?)
    && (ReadsDate(r) ==> r.value.Some?)
  }

  predicate AllConvertible(rules: seq<GmmpRule>)
  {
    forall i :: 0 <= i < |rules| ==> Convertible(rules[i])
  }

  /** The operand convert sets on a rule on field f of category c with
      operator o, other than a date, and what it logs on the way. */
  function OperandRead(c: Category, f: Field, o: Option<Operator>, r: GmmpRule): (Option<Operand>, seq<Diagnostic>)
    requires Convertible(r) && CategoryOfCode(r.field) == Some(c)
    requires Lookup(FieldTable(c), Some(r.field)) == Some(f) && Lookup(OperatorTable(c), Some(r.operator)) == o
  {
    match c
    case Textual => (TextOf(r.value), [])
    case Numeric =>
      if f == Duration then PeriodRead(Text.ParseInt(r.value.value).value, r.timeUnit)
      else (TextOf(r.value), [])
    case Temporal =>
      if o == Some(InTheLast) || o == Some(NotInTheLast) then PeriodRead(Text.ParseInt(r.value.value).value, r.timeUnit)
      else (None, [])
  }

  /** One pass of the loop of convert(FormattedSmartPlaylist, errorLog): the
      canonical rule, if it is added, and the messages logged. An unknown
      field code logs twice: once for the field and once for the missing
      operator. A date that does not parse drops the rule with one message.
      Otherwise a rule whose operator code is not in its category's table
      is dropped with one more message, and any other rule is kept, with
      the message a bad amount of time logs. */
  function DecodeRule(r: GmmpRule): (st: Step<Rule, Diagnostic>)
    requires Convertible(r)
    ensures st.kept.None? ==> 1 <= |st.notes| <= 2
    ensures st.kept.Some? ==> |st.notes| <= 1 && st.kept.value.field.Some? && st.kept.value.operator.Some?
  {
    match CategoryOfCode(r.field)
    case None => Step(None, [InvalidFieldCode(r.field), InvalidCombination(r.field, None, r.operator)])
    case Some(c) =>
      var f := Lookup(FieldTable(c), Some(r.field)).value;
      var o := Lookup(OperatorTable(c), Some(r.operator));
      if c == Temporal && (o == Some(Before) || o == Some(After)) then
        match Dates.Parse(r.value.value, '/')
        case Err(offset) => Step(None, [UnparseableDate(offset)])
        case Ok(d) => Step(Some(Rule(Some(f), o, Some(DateOperand(d)))), [])
      else
        var read := OperandRead(c, f, o, r);
        if o.None? then Step(None, read.1 + [InvalidCombination(r.field, Some(f), r.operator)])
        else Step(Some(Rule(Some(f), o, read.0)), read.1)
  }

  /** What becomes of a rule: one with an unknown field code is dropped with
      the two messages; any other is kept exactly when its operator code is
      in its category's table and, for a date, the date parses; a kept rule
      has the field and the operator its codes stand for. */
  lemma {:induction false} DecodeRuleOutcome(r: GmmpRule)
    requires Convertible(r)
    ensures var st := DecodeRule(r);
      && (CategoryOfCode(r.field).None? ==>
            st == Step(None, [InvalidFieldCode(r.field), InvalidCombination(r.field, None, r.operator)]))
      && (CategoryOfCode(r.field).Some? ==>
            var c := CategoryOfCode(r.field).value;
            && (st.kept.Some? <==> Lookup(OperatorTable(c), Some(r.operator)).Some?
                                   && !(ReadsDate(r) && Dates.Parse(r.value.value, '/').Err?))
            && (st.kept.Some? ==>
                  st.kept.value.field == Lookup(FieldTable(c), Some(r.field))
                  && st.kept.value.operator == Lookup(OperatorTable(c), Some(r.operator))))
  {
  }

  /** A rule that reads an amount of time and has a known operator is always
      kept: with the period as its operand, or, when the amount is negative
      or the unit code stands for no unit, with no operand and one message. */
  lemma {:induction false} PeriodRuleKept(r: GmmpRule)
    requires Convertible(r) && ReadsPeriod(r)
    requires Lookup(OperatorTable(CategoryOfCode(r.field).value), Some(r.operator)).Some?
    ensures var st := DecodeRule(r);
      var amount := Text.ParseInt(r.value.value).value;
      && st.kept.Some?
      && (st.kept.value.operand.None? <==> amount < 0 || !(0 <= r.timeUnit <= 3))
      && (amount < 0 ==> st.notes == [NegativeTime(amount)])
      && (amount >= 0 && !(0 <= r.timeUnit <= 3) ==> st.notes == [InvalidTimeUnit(r.timeUnit)])
      && (st.kept.value.operand.Some? ==>
            st.notes == [] && st.kept.value.operand.value == PeriodOperand(PeriodOf(amount, UnitByCode(r.timeUnit).value)))
  {
  }

  function DecodeSteps(rules: seq<GmmpRule>): (steps: seq<Step<Rule, Diagnostic>>)
    requires AllConvertible(rules)
    ensures |steps| == |rules|
    ensures forall i :: 0 <= i < |rules| ==> steps[i] == DecodeRule(rules[i])
  {
    if rules == [] then []
    else
      var init := rules[..|rules| - 1];
      assert AllConvertible(init) by {
        forall i | 0 <= i < |init| ensures Convertible(init[i]) {
          assert init[i] == rules[i];
        }
      }
      DecodeSteps(init) + [DecodeRule(rules[|rules| - 1])]
  }

  lemma {:induction false} DecodeStepsSnoc(rules: seq<GmmpRule>, i: nat)
    requires AllConvertible(rules) && i < |rules|
    ensures AllConvertible(rules[..i]) && AllConvertible(rules[..i + 1])
    ensures DecodeSteps(rules[..i + 1]) == DecodeSteps(rules[..i]) + [DecodeRule(rules[i])]
  {
    assert rules[..i + 1][..i] == rules[..i];
  }

  /** The defaults GMMP assumes, which both directions start from: random
      order, descending, match any rule, no limit. */
  const DefaultMatchAll := false
  const DefaultOrderKey := Random
  const DefaultAscending := false
  const DefaultLimit := 0

  /** The playlist after setDefaultsOn(AgnosticSmartPlaylist). */
  function AgnosticDefaults(p: AgnosticValue): AgnosticValue
  {
    p.(order := Some(Order(DefaultAscending, Some(DefaultOrderKey))),
       matchAll := Some(DefaultMatchAll),
       limit := Some(DefaultLimit))
  }

  /** The order after overrideDefaults: the key the order code stands for,
      if any, and ascending when the GMMP playlist says so. */
  function OrderFromGmmp(current: Order, g: GmmpValue): Order
    requires g.ascending.Some?
  {
    var key := Lookup(OrderTable, g.order);
    Order(if g.ascending.value then true else current.ascending, if key.Some? then key else current.key)
  }

  /** The playlist after overrideDefaults(AgnosticSmartPlaylist, GmmpSmartPlaylist). */
  function OverriddenFromGmmp(p: AgnosticValue, g: GmmpValue): AgnosticValue
    requires p.order.Some? && g.ascending.Some?
  {
    p.(order := Some(OrderFromGmmp(p.order.value, g)),
       matchAll := if g.matchAll.Some? then g.matchAll else p.matchAll,
       limit := if g.limit.Some? then g.limit else p.limit)
  }

  /** What overrideDefaults logs: an order code standing for no field. */
  function OrderCodeNotes(order: Option<int>): seq<Diagnostic>
  {
    if order.Some? && Lookup(OrderTable, order).None? then [InvalidOrderCode(order.value)] else []
  }

  /** The playlist convert(FormattedSmartPlaylist, errorLog) has built when
      it comes to the rules: always a music playlist. */
  function SettingsFromGmmp(g: GmmpValue): AgnosticValue
    requires g.ascending.Some?
  {
    OverriddenFromGmmp(AgnosticDefaults(NewAgnostic), g).(playlistType := Some(Music), name := g.name)
  }

  /** What convert(FormattedSmartPlaylist, errorLog) returns. */
  function Decoded(g: GmmpValue): AgnosticValue
    requires g.ascending.Some? && AllConvertible(g.rules)
  {
    SettingsFromGmmp(g).(rules := Kept(DecodeSteps(g.rules)))
  }

  /** setDefaultsOn(AgnosticSmartPlaylist). */
  method SetAgnosticDefaults(p: AgnosticSmartPlaylist)
    modifies p
    ensures p.Value() == AgnosticDefaults(old(p.Value()))
  {
    p.order := Some(Order(DefaultAscending, Some(DefaultOrderKey)));
    p.matchAll := Some(DefaultMatchAll);
    p.limit := Some(DefaultLimit);
  }

  /** overrideDefaults(AgnosticSmartPlaylist, GmmpSmartPlaylist, errorLog):
      the key when the order code stands for a field (logged when it does
      not), ascending only when true, match and limit when given. */
  method OverrideFromGmmp(p: AgnosticSmartPlaylist, g: GmmpSmartPlaylist, errorLog: ErrorLog)
    requires p.order.Some? && g.ascending.Some?
    modifies p, errorLog
    ensures p.Value() == OverriddenFromGmmp(old(p.Value()), g.Value())
    ensures errorLog.messages == old(errorLog.messages) + OrderCodeNotes(g.order)
  {
    if g.order.Some? {
      var key := Lookup(OrderTable, g.order);
      if key.Some? {
        p.order := Some(p.order.value.(key := key));
      } else {
        errorLog.AddAll([InvalidOrderCode(g.order.value)]);
      }
    }
    if g.ascending.value {
      p.order := Some(p.order.value.(ascending := true));
    }
    if g.matchAll.Some? {
      p.matchAll := g.matchAll;
    }
    if g.limit.Some? {
      p.limit := g.limit;
    }
  }

  /** The first part of convert(FormattedSmartPlaylist, errorLog): the
      defaults, overridden by the GMMP settings, the type and the name. */
  method ReadSettings(g: GmmpSmartPlaylist, errorLog: ErrorLog) returns (result: AgnosticSmartPlaylist)
    requires g.ascending.Some?
    modifies errorLog
    ensures fresh(result)
    ensures result.Value() == SettingsFromGmmp(g.Value()) && result.rules == []
    ensures errorLog.messages == old(errorLog.messages) + OrderCodeNotes(g.order)
  {
    result := new AgnosticSmartPlaylist();
    SetAgnosticDefaults(result);
    OverrideFromGmmp(result, g, errorLog);
    result.playlistType := Some(Music);
    result.name := g.name;
  }

  /** The loop of convert(FormattedSmartPlaylist, errorLog): each rule in
      turn is converted and added to the playlist, or logged and left out. */
  method AddDecodedRules(result: AgnosticSmartPlaylist, rules: seq<GmmpRule>, errorLog: ErrorLog)
    requires AllConvertible(rules)
    modifies result, errorLog
    ensures result.Value() == old(result.Value()).(rules := old(result.rules) + Kept(DecodeSteps(rules)))
    ensures errorLog.messages == old(errorLog.messages) + Notes(DecodeSteps(rules))
  {
    var added: seq<Rule> := [];
    var i := 0;
    ghost var steps := [];
    while i < |rules|
      modifies errorLog
      invariant 0 <= i <= |rules|
      invariant AllConvertible(rules[..i]) && steps == DecodeSteps(rules[..i])
      invariant added == Kept(steps)
      invariant errorLog.messages == old(errorLog.messages) + Notes(steps)
    {
      var step := DecodeRule(rules[i]);
      DecodeStepsSnoc(rules, i);
      StepAppended(old(errorLog.messages), steps, step);
      added := added + Kept([step]);
      errorLog.AddAll(step.notes);
      steps := steps + [step];
      i := i + 1;
    }
    assert rules[..i] == rules;
    result.rules := result.rules + added;
  }

  /** convert(FormattedSmartPlaylist, errorLog): the settings, then the rules. */
  method ToAgnostic(g: GmmpSmartPlaylist, errorLog: ErrorLog) returns (result: AgnosticSmartPlaylist)
    requires g.ascending.Some? && AllConvertible(g.rules)
    modifies errorLog
    ensures fresh(result)
    ensures result.Value() == Decoded(g.Value())
    ensures errorLog.messages == old(errorLog.messages) + OrderCodeNotes(g.order) + Notes(DecodeSteps(g.rules))
  {
    ghost var gv := g.Value();
    result := ReadSettings(g, errorLog);
    ghost var settled := result.Value();
    AddDecodedRules(result, g.rules, errorLog);
    assert result.Value() == settled.(rules := Kept(DecodeSteps(gv.rules)));
  }

  /** Every rule convert drops is logged at least once; the rules it keeps
      are converted in input order. */
  lemma {:induction false} DecodeLogsEachDroppedRule(rules: seq<GmmpRule>, i: nat)
    requires AllConvertible(rules) && i < |rules|
    ensures var steps := DecodeSteps(rules);
      |Notes(steps)| >= |rules| - |Kept(steps)|
      && (DecodeRule(rules[i]).kept.Some? ==>
            Kept(steps) == Kept(steps[..i]) + [DecodeRule(rules[i]).kept.value] + Kept(steps[i + 1..]))
  {
    var steps := DecodeSteps(rules);
    NotesCoverDrops(steps);
    KeptPlusDropped(steps);
    if DecodeRule(rules[i]).kept.Some? {
      KeptContains(steps, i);
    }
  }

  /** The settings read from a GMMP playlist: a music playlist with its
      name; a value it leaves out is the default; the order is ascending
      exactly when the playlist says so, since only true overrides the
      descending default; the key is the field the order code stands for,
      or random; one message at most, for an order code standing for no
      field. */
  lemma {:induction false} DecodedSettings(g: GmmpValue)
    requires g.ascending.Some?
    ensures var q := SettingsFromGmmp(g);
      && q.playlistType == Some(Music) && q.name == g.name
      && q.matchAll == (if g.matchAll.Some? then g.matchAll else Some(DefaultMatchAll))
      && q.limit == (if g.limit.Some? then g.limit else Some(DefaultLimit))
      && q.order == Some(Order(g.ascending.value,
                               if g.order.Some? && 0 <= g.order.value <= 14 then Lookup(OrderTable, g.order)
                               else Some(DefaultOrderKey)))
    ensures var notes := OrderCodeNotes(g.order);
      |notes| <= 1 && (notes == [] <==> g.order.None? || 0 <= g.order.value <= 14)
  {
    if g.order.Some? && 0 <= g.order.value <= 14 {
      var i: nat := g.order.value;
      TablesOneToOne(Textual);
      assert OrderTable[i].0 == i;
      LookupAt(OrderTable, i);
    } else if g.order.Some? {
      LookupFound(OrderTable, g.order);
    }
  }

  // ----- Writing a GMMP playlist

  /** Whether convert gets past a rule without a crash: a rule on a field
      with a category has an operator in that category's table (the code is
      unboxed) and an operand (whose class is asked for). */
  predicate Encodable(r: Rule)
  {
    match CategoryOfField(r.field)
    case None => true
    case Some(c) => KeyOf(OperatorTable(c), r.operator).Some? && r.operand.Some?
  }

  predicate AllEncodable(rules: seq<Rule>)
  {
    forall i :: 0 <= i < |rules| ==> Encodable(rules[i])
  }

  /** The value and time unit code written for an operand: a text as it is
      and a date as yyyy/MM/dd, both with no unit; a period as its amount in
      the largest unit up to days that leaves nothing over (GMMP has no
      weeks). */
  function EncodeOperand(operand: Operand): (w: (string, int))
    ensures operand.PeriodOperand? ==> UnitByCode(w.1).Some?
    ensures !operand.PeriodOperand? ==> w.1 == -1
  {
    match operand
    case TextOperand(text) => (text, UnitCode(None).value)
    case DateOperand(d) => (Dates.Format(d, '/'), UnitCode(None).value)
    case PeriodOperand(span) =>
      var a := Time.LargestUnitOf(span, Time.Days);
      UnitRoundTrip(a.unit);
      (Text.IntToDecimal(a.amount), UnitCode(Some(a.unit)).value)
  }

  /** One pass of the loop of convert(AgnosticSmartPlaylist, errorLog): a
      rule on a field with no GMMP code is logged and skipped; any other is
      written, as version 1, with the codes of its field and operator. */
  function EncodeRule(r: Rule): (st: Step<GmmpRule, Diagnostic>)
    requires Encodable(r)
    ensures |st.notes| == if st.kept.Some? then 0 else 1
    ensures st.kept.Some? <==> CategoryOfField(r.field).Some?
    ensures st.kept.Some? ==> st.kept.value.version == 1 && st.kept.value.value.Some?
  {
    match CategoryOfField(r.field)
    case None => Step(None, [FieldNotSupported(r.field)])
    case Some(c) =>
      var w := EncodeOperand(r.operand.value);
      Step(Some(GmmpRule(1, KeyOf(FieldTable(c), r.field).value, KeyOf(OperatorTable(c), r.operator).value,
                         Some(w.0), w.1)), [])
  }

  function EncodeSteps(rules: seq<Rule>): (steps: seq<Step<GmmpRule, Diagnostic>>)
    requires AllEncodable(rules)
    ensures |steps| == |rules|
    ensures forall i :: 0 <= i < |rules| ==> steps[i] == EncodeRule(rules[i])
  {
    if rules == [] then []
    else
      var init := rules[..|rules| - 1];
      assert AllEncodable(init) by {
        forall i | 0 <= i < |init| ensures Encodable(init[i]) {
          assert init[i] == rules[i];
        }
      }
      EncodeSteps(init) + [EncodeRule(rules[|rules| - 1])]
  }

  lemma {:induction false} EncodeStepsSnoc(rules: seq<Rule>, i: nat)
    requires AllEncodable(rules) && i < |rules|
    ensures AllEncodable(rules[..i]) && AllEncodable(rules[..i + 1])
    ensures EncodeSteps(rules[..i + 1]) == EncodeSteps(rules[..i]) + [EncodeRule(rules[i])]
  {
    assert rules[..i + 1][..i] == rules[..i];
  }

  /** The playlist after setDefaultsOn(GmmpSmartPlaylist). */
  function GmmpDefaults(g: GmmpValue): GmmpValue
  {
    g.(version := Some(1), order := KeyOf(OrderTable, Some(DefaultOrderKey)), ascending := Some(DefaultAscending),
       matchAll := Some(DefaultMatchAll), limit := Some(DefaultLimit))
  }

  /** The playlist after overrideDefaults(GmmpSmartPlaylist, AgnosticSmartPlaylist). */
  function OverriddenFromAgnostic(g: GmmpValue, p: AgnosticValue): GmmpValue
  {
    var code := if p.order.Some? then KeyOf(OrderTable, p.order.value.key) else None;
    g.(matchAll := if p.matchAll.Some? then p.matchAll else g.matchAll,
       order := if code.Some? then code else g.order,
       ascending := if p.order.Some? then Some(p.order.value.ascending) else g.ascending,
       limit := if p.limit.Some? then p.limit else g.limit)
  }

  /** What overrideDefaults logs: an order key with no GMMP code. */
  function OrderKeyNotes(order: Option<Order>): seq<Diagnostic>
  {
    if order.Some? && order.value.key.Some? && KeyOf(OrderTable, order.value.key).None?
    then [OrderNotAllowed(order.value.key.value)] else []
  }

  /** The playlist convert(AgnosticSmartPlaylist, errorLog) has built when it
      comes to the rules. */
  function SettingsFromAgnostic(p: AgnosticValue): GmmpValue
  {
    OverriddenFromAgnostic(GmmpDefaults(NewGmmp), p).(name := p.name)
  }

  /** What convert(AgnosticSmartPlaylist, errorLog) returns. */
  function Encoded(p: AgnosticValue): GmmpValue
    requires AllEncodable(p.rules)
  {
    SettingsFromAgnostic(p).(rules := Kept(EncodeSteps(p.rules)))
  }

  /** setDefaultsOn(GmmpSmartPlaylist). */
  method SetGmmpDefaults(g: GmmpSmartPlaylist)
    modifies g
    ensures g.Value() == GmmpDefaults(old(g.Value()))
  {
    g.version := Some(1);
    g.order := KeyOf(OrderTable, Some(DefaultOrderKey));
    g.ascending := Some(DefaultAscending);
    g.matchAll := Some(DefaultMatchAll);
    g.limit := Some(DefaultLimit);
  }

  /** overrideDefaults(GmmpSmartPlaylist, AgnosticSmartPlaylist, errorLog):
      match and limit when given; the order key when it has a code (logged
      when it has none), and the direction whenever there is an order. */
  method OverrideFromAgnostic(g: GmmpSmartPlaylist, p: AgnosticSmartPlaylist, errorLog: ErrorLog)
    modifies g, errorLog
    ensures g.Value() == OverriddenFromAgnostic(old(g.Value()), p.Value())
    ensures errorLog.messages == old(errorLog.messages) + OrderKeyNotes(p.order)
  {
    if p.matchAll.Some? {
      g.matchAll := p.matchAll;
    }
    if p.order.Some? {
      var po := p.order.value;
      if po.key.Some? {
        var code := KeyOf(OrderTable, po.key);
        if code.Some? {
          g.order := code;
        } else {
          errorLog.AddAll([OrderNotAllowed(po.key.value)]);
        }
      }
      g.ascending := Some(po.ascending);
    }
    if p.limit.Some? {
      g.limit := p.limit;
    }
  }

  /** The first part of convert(AgnosticSmartPlaylist, errorLog): the
      defaults, overridden by the agnostic settings, and the name. */
  method WriteSettings(p: AgnosticSmartPlaylist, errorLog: ErrorLog) returns (result: GmmpSmartPlaylist)
    modifies errorLog
    ensures fresh(result)
    ensures result.Value() == SettingsFromAgnostic(p.Value()) && result.rules == []
    ensures errorLog.messages == old(errorLog.messages) + OrderKeyNotes(p.order)
  {
    result := new GmmpSmartPlaylist();
    SetGmmpDefaults(result);
    OverrideFromAgnostic(result, p, errorLog);
    result.name := p.name;
  }

  /** The loop of convert(AgnosticSmartPlaylist, errorLog): each rule in turn
      is written and added to the playlist, or logged and left out. */
  method AddEncodedRules(result: GmmpSmartPlaylist, rules: seq<Rule>, errorLog: ErrorLog)
    requires AllEncodable(rules)
    modifies result, errorLog
    ensures result.Value() == old(result.Value()).(rules := old(result.rules) + Kept(EncodeSteps(rules)))
    ensures errorLog.messages == old(errorLog.messages) + Notes(EncodeSteps(rules))
  {
    var added: seq<GmmpRule> := [];
    var i := 0;
    ghost var steps := [];
    while i < |rules|
      modifies errorLog
      invariant 0 <= i <= |rules|
      invariant AllEncodable(rules[..i]) && steps == EncodeSteps(rules[..i])
      invariant added == Kept(steps)
      invariant errorLog.messages == old(errorLog.messages) + Notes(steps)
    {
      var step := EncodeRule(rules[i]);
      EncodeStepsSnoc(rules, i);
      StepAppended(old(errorLog.messages), steps, step);
      added := added + Kept([step]);
      errorLog.AddAll(step.notes);
      steps := steps + [step];
      i := i + 1;
    }
    assert rules[..i] == rules;
    result.rules := result.rules + added;
  }

  /** convert(AgnosticSmartPlaylist, errorLog): the settings, then the rules. */
  method FromAgnostic(p: AgnosticSmartPlaylist, errorLog: ErrorLog) returns (result: GmmpSmartPlaylist)
    requires AllEncodable(p.rules)
    modifies errorLog
    ensures fresh(result)
    ensures result.Value() == Encoded(p.Value())
    ensures errorLog.messages == old(errorLog.messages) + OrderKeyNotes(p.order) + Notes(EncodeSteps(p.rules))
  {
    ghost var pv := p.Value();
    result := WriteSettings(p, errorLog);
    ghost var settled := result.Value();
    AddEncodedRules(result, p.rules, errorLog);
    assert result.Value() == settled.(rules := Kept(EncodeSteps(pv.rules)));
  }

  /** Every rule convert skips is logged once, every rule it writes not at
      all, and the rules written keep their order. */
  lemma {:induction false} EncodeLogsEachDroppedRule(rules: seq<Rule>)
    requires AllEncodable(rules)
    ensures |Notes(EncodeSteps(rules))| == |rules| - |Kept(EncodeSteps(rules))|
  {
    OneNotePerDropCounts(EncodeSteps(rules));
  }

  // ----- Writing then reading

  /** The settings survive writing and reading back: the name, the match and
      the limit (a value left out comes back as the default), the direction
      (no order comes back descending), and the key when it has a code
      (random otherwise); and reading logs nothing about them. */
  lemma {:induction false} SettingsRoundTrip(p: AgnosticValue)
    ensures SettingsFromAgnostic(p).ascending.Some? && OrderCodeNotes(SettingsFromAgnostic(p).order) == []
    ensures var q := SettingsFromGmmp(SettingsFromAgnostic(p));
      && q.playlistType == Some(Music) && q.name == p.name
      && q.matchAll == Some(p.matchAll == Some(true))
      && q.limit == (if p.limit.Some? then p.limit else Some(DefaultLimit))
    ensures SettingsFromGmmp(SettingsFromAgnostic(p)).order
      == Some(Order(p.order.Some? && p.order.value.ascending,
                    if p.order.Some? && KeyOf(OrderTable, p.order.value.key).Some? then p.order.value.key
                    else Some(DefaultOrderKey)))
  {
    var g := SettingsFromAgnostic(p);
    TablesOneToOne(Textual);
    LookupAt(OrderTable, 0);
    assert KeyOf(OrderTable, Some(DefaultOrderKey)) == Some(0);
    var key := if p.order.Some? && KeyOf(OrderTable, p.order.value.key).Some? then p.order.value.key
               else Some(DefaultOrderKey);
    if p.order.Some? && KeyOf(OrderTable, p.order.value.key).Some? {
      TableRoundTrip(OrderTable, None, p.order.value.key);
      assert g.order == KeyOf(OrderTable, p.order.value.key);
    } else {
      assert g.order == Some(0);
    }
    assert Lookup(OrderTable, g.order) == key;
    assert g.ascending == Some(p.order.Some? && p.order.value.ascending);
    assert g.matchAll == (if p.matchAll.Some? then p.matchAll else Some(DefaultMatchAll));
    if p.matchAll.Some? {
      var b := p.matchAll.value;
      assert p.matchAll == Some(b);
      assert (p.matchAll == Some(true)) == b;
    }
    assert OrderFromGmmp(Order(DefaultAscending, Some(DefaultOrderKey)), g)
      == Order(p.order.Some? && p.order.value.ascending, key);
  }

  /** Whether a rule survives writing and reading back: its field has a
      category and its operator is in that category's table, and its
      operand is of the kind the reader expects there: a period for the
      duration and for a date field counted back, a date for a date field
      before or after, a text elsewhere. A period must not be negative, and
      its amount must fit Integer.parseInt. */
  predicate RoundTrips(r: Rule)
  {
    match CategoryOfField(r.field)
    case None => false
    case Some(c) =>
      && KeyOf(OperatorTable(c), r.operator).Some? && r.operand.Some?
      && var o := r.operator.value;
      && match r.operand.value
         case TextOperand(_) => c != Temporal && r.field != Some(Duration)
         case DateOperand(_) => c == Temporal && o in {Before, After}
         case PeriodOperand(span) =>
           (r.field == Some(Duration) || (c == Temporal && o in {InTheLast, NotInTheLast}))
           && Time.NonNegative(span) && Time.LargestUnitOf(span, Time.Days).amount <= Text.IntMax
  }

  /** The rule read back: a period comes back normalized. */
  function ReadBack(r: Rule): Rule
  {
    match r.operand
    case Some(PeriodOperand(span)) => r.(operand := Some(PeriodOperand(Time.NormalizeSpan(span))))
    case _ => r
  }

  /** A text rule is written and read back as it was. */
  lemma {:induction false} TextRuleRoundTrip(c: Category, f: Field, o: Operator, text: string)
    requires c != Temporal && f != Duration
    requires KeyOf(FieldTable(c), Some(f)).Some? && KeyOf(OperatorTable(c), Some(o)).Some?
    ensures var r := Rule(Some(f), Some(o), Some(TextOperand(text)));
      Encodable(r) && var w := EncodeRule(r).kept;
      w.Some? && Convertible(w.value) && DecodeRule(w.value) == Step(Some(r), [])
  {
    CodesRoundTrip(c, f, o);
    var r := Rule(Some(f), Some(o), Some(TextOperand(text)));
    var code := KeyOf(FieldTable(c), Some(f)).value;
    var w := GmmpRule(1, code, KeyOf(OperatorTable(c), Some(o)).value, Some(text), -1);
    assert EncodeRule(r).kept == Some(w);
    assert Lookup(FieldTable(c), Some(w.field)) == Some(f);
    assert Lookup(OperatorTable(c), Some(w.operator)) == Some(o);
    assert !ReadsDate(w);
    assert !ReadsPeriod(w);
    assert OperandRead(c, f, Some(o), w) == (Some(TextOperand(text)), []);
  }

  /** A date rule is written as yyyy/MM/dd and read back as it was. */
  lemma {:induction false} DateRuleRoundTrip(f: Field, o: Operator, d: Dates.Date)
    requires KeyOf(DateFieldTable, Some(f)).Some? && o in {Before, After}
    ensures var r := Rule(Some(f), Some(o), Some(DateOperand(d)));
      Encodable(r) && var w := EncodeRule(r).kept;
      w.Some? && Convertible(w.value) && DecodeRule(w.value) == Step(Some(r), [])
  {
    TablesOneToOne(Temporal);
    LookupAt(DateOperatorTable, 0);
    LookupAt(DateOperatorTable, 1);
    CodesRoundTrip(Temporal, f, o);
    Dates.ParseFormat(d, '/');
  }

  /** A span rebuilt from its amount in the largest unit up to days is the
      span, normalized. */
  lemma {:induction false} LargestUnitPeriod(span: Time.Span)
    requires Time.NonNegative(span)
    ensures var a := Time.LargestUnitOf(span, Time.Days);
      PeriodOf(a.amount, a.unit) == Time.NormalizeSpan(span)
  {
    var a := Time.LargestUnitOf(span, Time.Days);
    var s := Time.SpanOf(a.amount, Some(a.unit));
    Time.SpanOfTotal(a.amount, a.unit);
    assert Time.NonNegative(s);
    Time.NormalUnique(Time.NormalizeSpan(s), Time.NormalizeSpan(span));
  }

  /** The period GMMP reads back for the amount and unit written for a
      span: the same length of time, normalized. */
  lemma {:induction false} PeriodReadBack(span: Time.Span)
    requires Time.NonNegative(span) && Time.LargestUnitOf(span, Time.Days).amount <= Text.IntMax
    ensures var w := EncodeOperand(PeriodOperand(span));
      Text.ParseInt(w.0).Some?
      && PeriodRead(Text.ParseInt(w.0).value, w.1) == (Some(PeriodOperand(Time.NormalizeSpan(span))), [])
  {
    var a := Time.LargestUnitOf(span, Time.Days);
    var w := EncodeOperand(PeriodOperand(span));
    assert w == (Text.IntToDecimal(a.amount), UnitCode(Some(a.unit)).value);
    UnitRoundTrip(a.unit);
    Text.ParseIntToDecimal(a.amount);
    LargestUnitPeriod(span);
    assert PeriodRead(a.amount, w.1) == (Some(PeriodOperand(PeriodOf(a.amount, a.unit))), []);
  }

  /** What convert(AgnosticSmartPlaylist) writes for a period rule. */
  lemma {:induction false} PeriodRuleWritten(c: Category, f: Field, o: Operator, span: Time.Span)
    requires CategoryOfField(Some(f)) == Some(c)
    requires KeyOf(FieldTable(c), Some(f)).Some? && KeyOf(OperatorTable(c), Some(o)).Some?
    ensures var r := Rule(Some(f), Some(o), Some(PeriodOperand(span)));
      var e := EncodeOperand(PeriodOperand(span));
      Encodable(r) && EncodeRule(r).kept
        == Some(GmmpRule(1, KeyOf(FieldTable(c), Some(f)).value, KeyOf(OperatorTable(c), Some(o)).value, Some(e.0), e.1))
  {
  }

  /** What convert(FormattedSmartPlaylist) reads back from a written period
      rule, given the codes of its field and operator. */
  lemma {:induction false} PeriodRuleRead(c: Category, code: int, opCode: int, f: Field, o: Operator, span: Time.Span)
    requires CategoryOfCode(code) == Some(c)
    requires Lookup(FieldTable(c), Some(code)) == Some(f) && Lookup(OperatorTable(c), Some(opCode)) == Some(o)
    requires (c == Numeric && f == Duration) || (c == Temporal && o in {InTheLast, NotInTheLast})
    requires Time.NonNegative(span) && Time.LargestUnitOf(span, Time.Days).amount <= Text.IntMax
    ensures var e := EncodeOperand(PeriodOperand(span));
      var w := GmmpRule(1, code, opCode, Some(e.0), e.1);
      Convertible(w)
      && DecodeRule(w) == Step(Some(Rule(Some(f), Some(o), Some(PeriodOperand(Time.NormalizeSpan(span))))), [])
  {
    var e := EncodeOperand(PeriodOperand(span));
    var w := GmmpRule(1, code, opCode, Some(e.0), e.1);
    PeriodReadBack(span);
    var read := PeriodRead(Text.ParseInt(e.0).value, e.1);
    assert read == (Some(PeriodOperand(Time.NormalizeSpan(span))), []);
    assert ReadsPeriod(w) && !ReadsDate(w);
    assert OperandRead(c, f, Some(o), w) == read;
  }

  /** A period rule is written as an amount and a unit code and read back as
      the same length of time, normalized. */
  lemma {:induction false} PeriodRuleRoundTrip(c: Category, f: Field, o: Operator, span: Time.Span)
    requires KeyOf(FieldTable(c), Some(f)).Some? && KeyOf(OperatorTable(c), Some(o)).Some?
    requires f == Duration || (c == Temporal && o in {InTheLast, NotInTheLast})
    requires Time.NonNegative(span) && Time.LargestUnitOf(span, Time.Days).amount <= Text.IntMax
    ensures var r := Rule(Some(f), Some(o), Some(PeriodOperand(span)));
      Encodable(r) && var w := EncodeRule(r).kept;
      w.Some? && Convertible(w.value) && DecodeRule(w.value) == Step(Some(ReadBack(r)), [])
  {
    CodesRoundTrip(c, f, o);
    DurationIsNumeric();
    var r := Rule(Some(f), Some(o), Some(PeriodOperand(span)));
    var code, opCode := KeyOf(FieldTable(c), Some(f)).value, KeyOf(OperatorTable(c), Some(o)).value;
    var e := EncodeOperand(PeriodOperand(span));
    PeriodRuleWritten(c, f, o, span);
    assert EncodeRule(r).kept == Some(GmmpRule(1, code, opCode, Some(e.0), e.1));
    PeriodRuleRead(c, code, opCode, f, o, span);
    assert ReadBack(r) == Rule(Some(f), Some(o), Some(PeriodOperand(Time.NormalizeSpan(span))));
  }

  lemma DurationIsNumeric()
    ensures CategoryOfField(Some(Duration)) == Some(Numeric)
  {
  }

  /** Every rule that round-trips is written, read back without a crash and
      without a message, and comes back as ReadBack says. */
  lemma {:induction false} RuleRoundTrip(r: Rule)
    requires RoundTrips(r)
    ensures Encodable(r) && EncodeRule(r).kept.Some?
    ensures var w := EncodeRule(r).kept.value;
      Convertible(w) && DecodeRule(w) == Step(Some(ReadBack(r)), [])
  {
    var c := CategoryOfField(r.field).value;
    var f, o := r.field.value, r.operator.value;
    assert r == Rule(Some(f), Some(o), r.operand);
    match r.operand.value
    case TextOperand(text) => TextRuleRoundTrip(c, f, o, text);
    case DateOperand(d) => DateRuleRoundTrip(f, o, d);
    case PeriodOperand(span) => PeriodRuleRoundTrip(c, f, o, span);
  }

  /** Rules that all round-trip are all written, in order, with no message. */
  lemma {:induction false} RulesWritten(rules: seq<Rule>)
    requires forall i :: 0 <= i < |rules| ==> RoundTrips(rules[i])
    ensures AllEncodable(rules)
    ensures var steps := EncodeSteps(rules);
      Notes(steps) == [] && |Kept(steps)| == |rules|
      && forall i :: 0 <= i < |rules| ==>
           Convertible(Kept(steps)[i]) && DecodeRule(Kept(steps)[i]) == Step(Some(ReadBack(rules[i])), [])
  {
    forall i | 0 <= i < |rules| ensures Encodable(rules[i]) {
      RuleRoundTrip(rules[i]);
    }
    var steps := EncodeSteps(rules);
    forall i | 0 <= i < |steps|
      ensures steps[i].kept.Some? && steps[i].notes == []
      ensures Convertible(steps[i].kept.value)
      ensures DecodeRule(steps[i].kept.value) == Step(Some(ReadBack(rules[i])), [])
    {
      RuleRoundTrip(rules[i]);
    }
    NothingDropped(steps);
    OneNotePerDropCounts(steps);
  }

  /** Written rules that each read back without a message are all read back,
      in order, with no message. */
  lemma {:induction false} RulesRead(written: seq<GmmpRule>, rules: seq<Rule>)
    requires |written| == |rules|
    requires forall i :: 0 <= i < |written| ==>
      Convertible(written[i]) && DecodeRule(written[i]) == Step(Some(ReadBack(rules[i])), [])
    ensures AllConvertible(written)
    ensures Kept(DecodeSteps(written)) == seq(|rules|, i requires 0 <= i < |rules| => ReadBack(rules[i]))
    ensures Notes(DecodeSteps(written)) == []
  {
    var steps := DecodeSteps(written);
    forall i | 0 <= i < |steps| ensures steps[i] == Step(Some(ReadBack(rules[i])), []) {
      assert steps[i] == DecodeRule(written[i]);
    }
    NothingDropped(steps);
    OneNotePerDropCounts(steps);
    var back := seq(|rules|, i requires 0 <= i < |rules| => ReadBack(rules[i]));
    assert Kept(steps) == back by {
      forall i | 0 <= i < |back| ensures Kept(steps)[i] == back[i] {
        assert Kept(steps)[i] == steps[i].kept.value;
      }
    }
  }

  /** A playlist's rules that all round-trip are all written, all read back
      without a message, in the same order, as ReadBack says. */
  lemma {:induction false} RulesRoundTrip(rules: seq<Rule>)
    requires forall i :: 0 <= i < |rules| ==> RoundTrips(rules[i])
    ensures AllEncodable(rules)
    ensures var written := Kept(EncodeSteps(rules));
      Notes(EncodeSteps(rules)) == [] && AllConvertible(written)
      && Kept(DecodeSteps(written)) == seq(|rules|, i requires 0 <= i < |rules| => ReadBack(rules[i]))
      && Notes(DecodeSteps(written)) == []
  {
    RulesWritten(rules);
    RulesRead(Kept(EncodeSteps(rules)), rules);
  }
}
