/** The playlists the converters read and write: the format-agnostic playlist
    every conversion passes through, the XBMC and GMMP playlists as their XML
    binding classes hold them, and the error log conversions append to.

    A playlist object's fields are updated in place by the converters, so each
    playlist is a class; its Value() is a record of those fields, on which the
    conversions are specified. Java's nullable references and boxed Boolean and
    Integer fields are Option values. */
module Playlists {
  import opened Outcomes
  import Dates
  import Time

  /** The metadata a rule tests or a playlist is ordered by. */
  datatype Field =
    | Artist | AlbumArtist | Title | Album | Genre | Path | FileName | Comment | Playlist
    | Year | DiscNumber | TrackNumber | Duration | PlayCount | Rating
    | LastPlayed | DateAdded
    | Random

  datatype Operator =
    | Contains | DoesNotContain | Is | IsNot | StartsWith | EndsWith
    | LessThan | LessThanOrEqual | GreaterThan | GreaterThanOrEqual
    | After | Before | InTheLast | NotInTheLast

  /** The kinds of field the XBMC and GMMP converters tell apart (string,
      number and date fields), each with a table of field codes and a table
      of the operators allowed on those fields. */
  datatype Category = Textual | Numeric | Temporal

  datatype PlaylistType = Music | Artists | Albums | Mixed

  /** What a rule compares against: a text, a calendar date or a length of
      time (a Time or TimePeriod, by its fields). */
  datatype Operand =
    | TextOperand(text: string)
    | DateOperand(date: Dates.Date)
    | PeriodOperand(span: Time.Span)

  /** A TimePeriod of amount units, as the GMMP converter builds it. */
  function PeriodOf(amount: int, unit: Time.TimeUnit): Time.Span
  {
    Time.NormalizeSpan(Time.SpanOf(amount, Some(unit)))
  }

  datatype Rule = Rule(field: Option<Field>, operator: Option<Operator>, operand: Option<Operand>)

  datatype Order = Order(ascending: bool, key: Option<Field>)

  datatype AgnosticValue = AgnosticValue(
    playlistType: Option<PlaylistType>,
    name: Option<string>,
    matchAll: Option<bool>,
    limit: Option<int>,
    order: Option<Order>,
    rules: seq<Rule>)

  /** The fields of a new AgnosticSmartPlaylist. */
  const NewAgnostic := AgnosticValue(None, None, None, None, None, [])

  /** AgnosticSmartPlaylist: the playlist every conversion goes through. */
  class AgnosticSmartPlaylist {
    var playlistType: Option<PlaylistType>
    var name: Option<string>
    var matchAll: Option<bool>
    var limit: Option<int>
    var order: Option<Order>
    var rules: seq<Rule>

    function Value(): AgnosticValue
      reads this
    {
      AgnosticValue(playlistType, name, matchAll, limit, order, rules)
    }

    /** A new playlist has no rules and every other field unset. */
    constructor ()
      ensures Value() == NewAgnostic
    {
      playlistType, name, matchAll, limit, order, rules := None, None, None, None, None, [];
    }
  }

  /** An XBMC rule: three texts, each possibly missing from the XML. */
  datatype XbmcRule = XbmcRule(field: Option<string>, operator: Option<string>, operand: Option<string>)

  datatype XbmcOrder = XbmcOrder(direction: Option<string>, sortKey: Option<string>)

  /** The two XBMC playlist classes, which have the same fields. */
  datatype XbmcVersion = V11 | V12

  datatype XbmcValue = XbmcValue(
    version: XbmcVersion,
    playlistType: Option<string>,
    name: Option<string>,
    matching: Option<string>,
    limit: Option<int>,
    order: Option<XbmcOrder>,
    rules: seq<XbmcRule>)

  /** XbmcV11SmartPlaylist or XbmcV12SmartPlaylist, by its version. */
  class XbmcSmartPlaylist {
    const version: XbmcVersion
    var playlistType: Option<string>
    var name: Option<string>
    var matching: Option<string>
    var limit: Option<int>
    var order: Option<XbmcOrder>
    var rules: seq<XbmcRule>

    function Value(): XbmcValue
      reads this
    {
      XbmcValue(version, playlistType, name, matching, limit, order, rules)
    }

    constructor (version: XbmcVersion)
      ensures Value() == XbmcValue(version, None, None, None, None, None, [])
    {
      this.version := version;
      playlistType, name, matching, limit, order, rules := None, None, None, None, None, [];
    }
  }

  /** A GMMP rule: integer codes, a value text and a time unit code. */
  datatype GmmpRule = GmmpRule(version: int, field: int, operator: int, value: Option<string>, timeUnit: int)

  datatype GmmpValue = GmmpValue(
    version: Option<int>,
    name: Option<string>,
    order: Option<int>,
    ascending: Option<bool>,
    limit: Option<int>,
    matchAll: Option<bool>,
    rules: seq<GmmpRule>)

  /** The fields of a new GmmpSmartPlaylist. */
  const NewGmmp := GmmpValue(None, None, None, None, None, None, [])

  /** GmmpSmartPlaylist. */
  class GmmpSmartPlaylist {
    var version: Option<int>
    var name: Option<string>
    var order: Option<int>
    var ascending: Option<bool>
    var limit: Option<int>
    var matchAll: Option<bool>
    var rules: seq<GmmpRule>

    function Value(): GmmpValue
      reads this
    {
      GmmpValue(version, name, order, ascending, limit, matchAll, rules)
    }

    constructor ()
      ensures Value() == NewGmmp
    {
      version, name, order, ascending, limit, matchAll, rules := None, None, None, None, None, None, [];
    }
  }

  /** The messages conversions log, one constructor per kind of message,
      holding the values the message embeds. */
  datatype Diagnostic =
    // reading XBMC playlists
    | UnknownField(fieldName: Option<string>)
    | UnknownOperator(operatorName: Option<string>)
    | OperatorNotOnField(operatorName: Option<string>, onField: Field)
    | CombinationNotAllowed(ruleField: Option<Field>)
    | UnparseableOperand(offset: int, dateHint: bool)
    | NotANumber(token: string)
    | InvalidOrderValue(sortKey: string)
    | OrderByPlaylist
    // writing XBMC and GMMP playlists
    | FieldNotSupported(ruleField: Option<Field>)
    | OperatorNotAllowed(ruleOperator: Option<Operator>, ruleField: Option<Field>)
    | OrderNotAllowed(key: Field)
    // reading GMMP playlists
    | InvalidFieldCode(fieldCode: int)
    | InvalidCombination(fieldCode: int, ruleField: Option<Field>, operatorCode: int)
    | NegativeTime(amount: int)
    | InvalidTimeUnit(unitCode: int)
    | UnparseableDate(offset: int)
    | InvalidOrderCode(orderCode: int)

  /** Whether an exception message contains the word "date"; the XBMC
      converters then add the expected date format to what they log. */
  predicate MentionsDate(message: string)
  {
    |message| >= 4 && (message[..4] == "date" || MentionsDate(message[1..]))
  }

  /** The error list a conversion appends to. */
  class ErrorLog {
    var messages: seq<Diagnostic>

    constructor ()
      ensures messages == []
    {
      messages := [];
    }

    /** Appends the messages, in order. */
    method AddAll(ms: seq<Diagnostic>)
      modifies this
      ensures messages == old(messages) + ms
    {
      messages := messages + ms;
    }

    method Clear()
      modifies this
      ensures messages == []
    {
      messages := [];
    }
  }
}
