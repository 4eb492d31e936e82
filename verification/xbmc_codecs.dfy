/** What the two XBMC converter lineages have in common: the texts of the
    "match" and order-direction elements, the yyyy-MM-dd date format, how a
    time is written on the last-played field, and how a ParseException from
    an operand is reported. */
module XbmcCodecs {
  import opened Outcomes
  import Text
  import Time
  import TimeParse
  import Dates
  import opened Playlists

  /** getMatchAllFromXbmc: only "all" asks for every rule to match. */
  function MatchAllFromXbmc(matching: string): bool
  {
    matching == "all"
  }

  /** getMatchAllForXbmc. */
  function MatchAllForXbmc(matchAll: bool): string
  {
    if matchAll then "all" else "one"
  }

  /** getOrderFromXbmc: anything but "descending" is ascending. */
  function AscendingFromXbmc(direction: string): bool
  {
    direction != "descending"
  }

  /** getOrderForXbmc. */
  function DirectionForXbmc(ascending: bool): string
  {
    if ascending then "ascending" else "descending"
  }

  /** Writing a flag and reading it back gives the flag; reading accepts
      exactly the texts written for true, and falls back on the other value
      for anything else. */
  lemma CodecsRoundTrip(b: bool, text: string)
    ensures MatchAllFromXbmc(MatchAllForXbmc(b)) == b
    ensures AscendingFromXbmc(DirectionForXbmc(b)) == b
    ensures MatchAllFromXbmc(text) <==> text == MatchAllForXbmc(true)
    ensures !AscendingFromXbmc(text) <==> text == DirectionForXbmc(false)
  {
  }

  /** DATE_FORMAT, "yyyy-MM-dd", parsing. */
  function ParseDate(text: string): Result<Dates.Date, nat>
  {
    Dates.Parse(text, '-')
  }

  /** DATE_FORMAT, "yyyy-MM-dd", formatting. */
  function FormatDate(d: Dates.Date): string
  {
    Dates.Format(d, '-')
  }

  lemma DateRoundTrip(d: Dates.Date)
    ensures ParseDate(FormatDate(d)) == Ok(d)
  {
    Dates.ParseFormat(d, '-');
  }

  /** The operand written for a time on the last-played field:
      getLargestUnit(WEEKS) as "<n> <unit word>", with the plural words of
      TIME_UNIT_MAP. */
  function LastPlayedText(span: Time.Span): string
  {
    var a := Time.LargestUnitOf(span, Time.Weeks);
    Text.IntToDecimal(a.amount) + " " + Time.PluralWord(a.unit)
  }

  /** The word format reads the last-played text back as a span of the
      same length, as long as the number fits an int. */
  lemma LastPlayedRoundTrip(span: Time.Span)
    requires Time.NonNegative(span) && Time.LargestUnitOf(span, Time.Weeks).amount <= Text.IntMax
    ensures var s := LastPlayedText(span);
      !TimeParse.ClockFormat(s) && TimeParse.WordFormat(s)
      && TimeParse.ParseAsWords(s).Parsed? && TimeParse.ParseText(s) == TimeParse.ParseAsWords(s)
      && Time.TotalSeconds(TimeParse.ParseAsWords(s).span) == Time.TotalSeconds(span)
  {
    var a := Time.LargestUnitOf(span, Time.Weeks);
    TimeParse.WordsRoundTrip(a.amount, a.unit, Time.PluralWord(a.unit));
    Time.SpanOfTotal(a.amount, a.unit);
  }

  /** The operand written for a time on the duration field: Time.toString,
      which normalizes and prints [hh:]mm:ss. */
  function DurationText(span: Time.Span): string
  {
    Time.ClockText(Time.NormalizeSpan(span))
  }

  /** The clock format reads the duration text back as the time of day part
      of the span: whole days are not printed, so a span of less than a day
      comes back unchanged up to normalization and a longer one loses its
      whole days. */
  lemma DurationRoundTrip(span: Time.Span)
    requires Time.NonNegative(span)
    ensures var s := DurationText(span);
      var back := Time.NormalizeSpan(span).(weeks := 0, days := 0);
      TimeParse.ClockFormat(s) && TimeParse.ParseAsClock(s) == back
      && TimeParse.ParseText(s) == TimeParse.Parsed(back)
      && Time.TotalSeconds(back) == Time.TotalSeconds(span) % 86400
      && (Time.TotalSeconds(span) < 86400 ==> back == Time.NormalizeSpan(span))
  {
    var t := Time.NormalizeSpan(span);
    var back := t.(weeks := 0, days := 0);
    assert Time.ClockText(back) == Time.ClockText(t);
    TimeParse.ClockRoundTrip(back);
    Time.TimeOfDay(t);
  }

  /** The message logged for a ParseException from an operand: its error
      offset, and whether the expected date format is added to it. */
  function ParseFailure(message: string, offset: int): Diagnostic
  {
    UnparseableOperand(offset, MentionsDate(message))
  }

  /** A text with "date" in it mentions a date. */
  lemma {:induction false} MentionsDateWithin(a: string, b: string)
    ensures MentionsDate(a + "date" + b)
    decreases |a|
  {
    var s := a + "date" + b;
    if a == [] {
      assert s[..4] == "date";
    } else {
      MentionsDateWithin(a[1..], b);
      assert s[1..] == a[1..] + "date" + b;
    }
  }

  /** A date that does not parse is always logged with the expected format. */
  lemma DateFailureHint(text: string)
    ensures ParseFailure(Dates.FailureMessage(text), 0).dateHint
  {
    assert Dates.FailureMessage(text) == "Unparseable " + "date" + (": \"" + text + "\"");
    MentionsDateWithin("Unparseable ", ": \"" + text + "\"");
  }
}
