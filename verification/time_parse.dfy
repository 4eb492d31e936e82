/** Time.parse: reading a duration written as a clock ("2:30", "1:02:03") or
    as a number and a unit ("10 seconds", "2 Weeks"), and the error offset it
    reports when neither reading applies. A parsed Time is represented here by
    its field values. */
module TimeParse {
  import opened Outcomes
  import Text
  import opened Time

  datatype ParseResult =
    | Parsed(span: Span)          // the Time that was read, by its fields
    | Malformed(offset: int)      // a ParseException and its error offset
    | BadNumber(token: string)    // a NumberFormatException from Integer.parseInt

  const Colon: set<char> := {':'}

  // ----- The clock format (\d{1,2})(:\d\d){1,2}

  /** The length of the leading group: two digits when the second character is one. */
  function LeadLength(s: string): nat
  {
    if |s| >= 2 && Text.IsDigit(s[1]) then 2 else 1
  }

  /** One or two ":dd" groups and nothing else. */
  predicate ClockTail(t: string)
  {
    (|t| == 3 || |t| == 6)
    && forall k :: 0 <= k < |t| ==> if k % 3 == 0 then t[k] == ':' else Text.IsDigit(t[k])
  }

  /** The whole text matches (\d{1,2})(:\d\d){1,2}. */
  predicate ClockFormat(s: string)
  {
    |s| >= 1 && Text.IsDigit(s[0]) && ClockTail(s[LeadLength(s)..])
  }

  /** The digit groups of a clock-format text, read by position. */
  function ClockGroups(s: string): (r: seq<string>)
    requires ClockFormat(s)
    ensures |r| == 2 || |r| == 3
    ensures forall k :: 0 <= k < |r| ==> 1 <= |r[k]| <= 2 && Text.AllDigits(r[k])
  {
    var n := LeadLength(s);
    assert s[n] == ':' && s[n + 1..n + 3] == s[n..][1..3];
    if |s| - n == 3 then [s[..n], s[n + 1..n + 3]]
    else
      assert s[n + 4..n + 6] == s[n..][4..6];
      [s[..n], s[n + 1..n + 3], s[n + 4..n + 6]]
  }

  lemma SmallNumeral(p: string)
    requires 1 <= |p| <= 2 && Text.AllDigits(p)
    ensures Text.DigitsValue(p) < 100 && Text.ParseInt(p) == Some(Text.DigitsValue(p))
  {
    if |p| == 2 {
      assert p[..1][..0] == [];
    } else {
      assert p[..0] == [];
    }
  }

  lemma DigitsHaveNoColon(d: string)
    requires Text.AllDigits(d)
    ensures Text.NoneOf(d, Colon)
  {
    assert forall k :: 0 <= k < |d| ==> Text.IsDigit(d[k]);
  }

  /** String.split(":") cuts a clock-format text into exactly its groups. */
  lemma ClockSplit(s: string)
    requires ClockFormat(s)
    ensures Text.Split(s, Colon) == ClockGroups(s)
  {
    var n := LeadLength(s);
    var g := ClockGroups(s);
    assert s[n] == s[n..][0];
    DigitsHaveNoColon(g[0]);
    DigitsHaveNoColon(g[1]);
    if |s| - n == 3 {
      assert s == g[0] + [s[n]] + g[1];
      Text.SplitTwo(g[0], s[n], g[1], Colon);
    } else {
      DigitsHaveNoColon(g[2]);
      assert s[n + 3] == s[n..][3];
      assert s == g[0] + [s[n]] + g[1] + [s[n + 3]] + g[2];
      Text.SplitThree(g[0], s[n], g[1], s[n + 3], g[2], Colon);
    }
  }

  /** The fields a clock-format text names, read by position: mm:ss or hh:mm:ss. */
  function ClockFields(s: string): Span
    requires ClockFormat(s)
  {
    var g := ClockGroups(s);
    if |g| == 2 then Span(0, 0, 0, Text.DigitsValue(g[0]), Text.DigitsValue(g[1]))
    else Span(0, 0, Text.DigitsValue(g[0]), Text.DigitsValue(g[1]), Text.DigitsValue(g[2]))
  }

  /** Time.parseAsClock: split at the colons, read each group with
      Integer.parseInt, two groups being minutes and seconds and three hours,
      minutes and seconds; the result is normalized. */
  function ParseAsClock(s: string): (r: Span)
    requires ClockFormat(s)
    ensures r == NormalizeSpan(ClockFields(s)) && IsNormal(r)
  {
    ClockSplit(s);
    var parts := Text.Split(s, Colon);
    SmallNumeral(parts[0]);
    SmallNumeral(parts[1]);
    if |parts| == 2 then
      NormalizeSpan(Span(0, 0, 0, Text.ParseInt(parts[0]).value, Text.ParseInt(parts[1]).value))
    else
      SmallNumeral(parts[2]);
      NormalizeSpan(Span(0, 0, Text.ParseInt(parts[0]).value, Text.ParseInt(parts[1]).value, Text.ParseInt(parts[2]).value))
  }

  // ----- The word format ^\s*\d+\s*(week|day|hour|minute|second)s?\s*$, ignoring case

  /** The text starts with the word w, letter case aside. */
  predicate WordAt(t: string, w: string)
  {
    |w| <= |t| && forall k :: 0 <= k < |w| ==> Text.LowerChar(t[k]) == w[k]
  }

  /** From position i on: an optional s, then white space only. */
  predicate PluralTail(t: string, i: nat)
  {
    forall k :: i <= k < |t| ==> Text.IsSpace(t[k]) || (k == i && (t[k] == 's' || t[k] == 'S'))
  }

  /** The word of unit u in any letter case, an optional s, then white space only. */
  predicate UnitTailFor(t: string, u: TimeUnit)
  {
    WordAt(t, SingularWord(u)) && PluralTail(t, |SingularWord(u)|)
  }

  predicate UnitTail(t: string)
  {
    UnitTailFor(t, Weeks) || UnitTailFor(t, Days) || UnitTailFor(t, Hours)
    || UnitTailFor(t, Minutes) || UnitTailFor(t, Seconds)
  }

  /** Where the number starts: after the leading white space. */
  function NumberStart(s: string): nat
    ensures NumberStart(s) <= |s|
  {
    Text.SpaceRun(s, 0)
  }

  /** Where the number ends. */
  function NumberEnd(s: string): nat
    ensures NumberStart(s) <= NumberEnd(s) <= |s|
  {
    NumberStart(s) + Text.DigitRun(s, NumberStart(s))
  }

  /** Where the word starts: after the white space following the number. */
  function WordStart(s: string): nat
    ensures NumberEnd(s) <= WordStart(s) <= |s|
  {
    NumberEnd(s) + Text.SpaceRun(s, NumberEnd(s))
  }

  /** The whole text matches the word format. White space, digits and
      letters are disjoint, so each group is the longest run of its kind. */
  predicate WordFormat(s: string)
  {
    NumberStart(s) < NumberEnd(s) && UnitTail(s[WordStart(s)..])
  }

  /** The unit the word of a word-format text names. */
  function WordUnit(s: string): TimeUnit
    requires WordFormat(s)
  {
    var t := s[WordStart(s)..];
    if UnitTailFor(t, Weeks) then Weeks
    else if UnitTailFor(t, Days) then Days
    else if UnitTailFor(t, Hours) then Hours
    else if UnitTailFor(t, Minutes) then Minutes
    else Seconds
  }

  /** The digits of a word-format text's number. */
  function NumberText(s: string): (d: string)
    ensures Text.AllDigits(d)
  {
    var d := s[NumberStart(s)..NumberEnd(s)];
    assert forall j :: 0 <= j < |d| ==> d[j] == s[NumberStart(s) + j];
    d
  }

  /** The position of the first separator, or the length of the text. */
  function FirstOf(s: string, separators: set<char>): (f: nat)
    ensures f <= |s| && Text.NoneOf(s[..f], separators) && (f < |s| ==> s[f] in separators)
  {
    if s == [] then 0
    else if s[0] in separators then 0
    else
      var f := 1 + FirstOf(s[1..], separators);
      assert s[..f] == [s[0]] + s[1..][..f - 1];
      f
  }

  lemma {:induction false} FirstOfAtLeast(s: string, k: nat, separators: set<char>)
    requires k <= |s| && Text.NoneOf(s[..k], separators)
    ensures FirstOf(s, separators) >= k
    decreases k
  {
    if k > 0 {
      assert s[0] == s[..k][0];
      var x := s[1..][..k - 1];
      assert Text.NoneOf(x, separators) by {
        forall j | 0 <= j < |x| ensures x[j] !in separators {
          assert x[j] == s[..k][j + 1];
        }
      }
      FirstOfAtLeast(s[1..], k - 1, separators);
    }
  }

  /** A character whose lower case is a letter is neither white space nor a digit. */
  lemma LetterIsNotSpace(c: char)
    requires 'a' <= Text.LowerChar(c) <= 'z'
    ensures !Text.IsSpace(c) && !Text.IsDigit(c) && Text.IsWordChar(c)
  {
  }

  /** A unit tail starts with a letter. */
  lemma UnitTailStart(t: string, u: TimeUnit)
    requires UnitTailFor(t, u)
    ensures |t| >= 1 && !Text.IsSpace(t[0]) && !Text.IsDigit(t[0])
    ensures 'a' <= Text.LowerChar(t[0]) <= 'z'
  {
    WordsLetters(u);
    LetterIsNotSpace(t[0]);
  }

  /** The length of the first token of a unit tail: the unit's word, plus
      one for a plural 's'. */
  function TokenLength(t: string, u: TimeUnit): (g: nat)
    requires UnitTailFor(t, u)
    ensures g <= |t| && (g == |SingularWord(u)| || g == |SingularWord(u)| + 1)
  {
    var w := SingularWord(u);
    if |t| == |w| || Text.IsSpace(t[|w|]) then |w| else |w| + 1
  }

  /** The first token of a unit tail is the first piece String.split gives. */
  lemma TokenPiece(t: string, u: TimeUnit)
    requires UnitTailFor(t, u)
    ensures Text.Pieces(t, Text.Spaces)[0] == t[..TokenLength(t, u)]
  {
    var w := SingularWord(u);
    var g := TokenLength(t, u);
    WordsLetters(u);
    assert g < |t| ==> Text.IsSpace(t[g]);
    var token := t[..g];
    assert Text.NoneOf(token, Text.Spaces) by {
      forall k | 0 <= k < g ensures token[k] !in Text.Spaces {
        if k < |w| {
          LetterIsNotSpace(t[k]);
        }
      }
    }
    Text.PiecesHead(t, g, Text.Spaces);
  }

  /** Lower-cased, the first token of a unit tail is the unit's word. */
  lemma TokenWord(t: string, u: TimeUnit)
    requires UnitTailFor(t, u)
    ensures var lw := Text.Lower(t[..TokenLength(t, u)]);
      lw == SingularWord(u) || lw == PluralWord(u)
  {
    var w := SingularWord(u);
    var g := TokenLength(t, u);
    var lw := Text.Lower(t[..g]);
    if g == |w| {
      assert lw == w by {
        assert forall k :: 0 <= k < |w| ==> lw[k] == w[k];
      }
    } else {
      assert lw == PluralWord(u) by {
        assert forall k :: 0 <= k < |w| ==> lw[k] == PluralWord(u)[k];
        assert lw[|w|] == 's';
      }
    }
  }

  /** The first white-space-separated token of a unit tail names its unit. */
  lemma UnitToken(t: string, u: TimeUnit)
    requires UnitTailFor(t, u)
    ensures ParseTimeUnit(Text.Pieces(t, Text.Spaces)[0]) == Some(u)
  {
    TokenPiece(t, u);
    TokenWord(t, u);
    ParseTimeUnitWords(u, t[..TokenLength(t, u)]);
  }

  lemma WordUnitTail(s: string)
    requires WordFormat(s)
    ensures UnitTailFor(s[WordStart(s)..], WordUnit(s))
  {
  }

  /** The runs every text is cut into: white space, digits, white space. */
  lemma Runs(s: string)
    ensures var a, b, c := NumberStart(s), NumberEnd(s), WordStart(s);
      (forall k :: 0 <= k < a ==> Text.IsSpace(s[k]))
      && (forall k :: a <= k < b ==> Text.IsDigit(s[k]) && !Text.IsSpace(s[k]))
      && (forall k :: b <= k < c ==> Text.IsSpace(s[k]))
  {
  }

  /** The word of a word-format text starts with a letter. */
  lemma WordStartsWithLetter(s: string)
    requires WordFormat(s)
    ensures WordStart(s) < |s| && !Text.IsSpace(s[WordStart(s)]) && !Text.IsDigit(s[WordStart(s)])
    ensures 'a' <= Text.LowerChar(s[WordStart(s)]) <= 'z'
  {
    var c := WordStart(s);
    WordUnitTail(s);
    UnitTailStart(s[c..], WordUnit(s));
    assert s[c..][0] == s[c];
  }

  /** The runs of a word-format text: white space, digits, white space, then
      the word, which starts with a letter. */
  lemma WordsLayout(s: string)
    requires WordFormat(s)
    ensures var a, b, c := NumberStart(s), NumberEnd(s), WordStart(s);
      a < b <= c < |s|
      && (forall k :: 0 <= k < a ==> Text.IsSpace(s[k]))
      && (forall k :: a <= k < b ==> Text.IsDigit(s[k]) && !Text.IsSpace(s[k]))
      && (forall k :: b <= k < c ==> Text.IsSpace(s[k]))
      && !Text.IsSpace(s[c]) && !Text.IsDigit(s[c])
  {
    Runs(s);
    WordStartsWithLetter(s);
  }

  /** A text that starts with a separator and has something else later:
      String.split gives an empty first piece. */
  lemma SplitLeadingSpace(s: string, a: nat)
    requires 0 < a < |s| && Text.IsSpace(s[0]) && !Text.IsSpace(s[a])
    ensures var parts := Text.Split(s, Text.Spaces); |parts| >= 1 && parts[0] == ""
  {
    assert s[1..][a - 1] == s[a];
    assert s[..0] == "";
    Text.SplitAtFirst(s, 0, Text.Spaces);
  }

  /** A text whose first b + 1 characters are not separators: String.split's
      first piece holds them. */
  lemma SplitJoined(s: string, b: nat)
    requires b < |s| && forall k :: 0 <= k <= b ==> !Text.IsSpace(s[k])
    ensures var parts := Text.Split(s, Text.Spaces); |parts| >= 1 && b < |parts[0]| && parts[0][b] == s[b]
  {
    var f := FirstOf(s, Text.Spaces);
    var x := s[..b + 1];
    assert Text.NoneOf(x, Text.Spaces) by {
      forall k | 0 <= k < |x| ensures x[k] !in Text.Spaces {
        assert x[k] == s[k];
      }
    }
    FirstOfAtLeast(s, b + 1, Text.Spaces);
    if f == |s| {
      assert s[..f] == s;
    } else {
      Text.SplitAtFirst(s, f, Text.Spaces);
    }
    assert s[..f][b] == s[b];
  }

  /** A text of b non-separators, then c - b separators, then a non-separator:
      String.split gives the first b characters, then the piece after a
      single separator or the empty piece after several. */
  lemma SplitSeparated(s: string, b: nat, c: nat)
    requires 0 < b < c < |s| && !Text.IsSpace(s[c])
    requires forall k :: 0 <= k < b ==> !Text.IsSpace(s[k])
    requires forall k :: b <= k < c ==> Text.IsSpace(s[k])
    ensures var parts := Text.Split(s, Text.Spaces);
      |parts| >= 2 && parts[0] == s[..b]
      && parts[1] == if c == b + 1 then Text.Pieces(s[c..], Text.Spaces)[0] else ""
  {
    assert Text.NoneOf(s[..b], Text.Spaces) by {
      forall k | 0 <= k < b ensures s[..b][k] !in Text.Spaces {
        assert s[..b][k] == s[k];
      }
    }
    var rest := s[b + 1..];
    assert rest[c - b - 1] == s[c];
    Text.SplitAtFirst(s, b, Text.Spaces);
    if c == b + 1 {
      assert rest == s[c..];
    } else {
      assert rest[0] == s[b + 1];
      Text.PiecesHead(rest, 0, Text.Spaces);
    }
  }

  /** No unit is named by the empty word. */
  lemma NoEmptyUnit()
    ensures ParseTimeUnit("") == None
  {
    assert Text.Lower("") == "";
    assert forall v :: |SingularWord(v)| > 0;
  }

  /** With white space between number and word, the first piece is the
      number and the second is the word, or empty when that white space is
      longer than one character. */
  lemma WordsSplitSeparated(s: string)
    requires WordFormat(s) && NumberStart(s) == 0 && NumberEnd(s) < WordStart(s)
    ensures var parts := Text.Split(s, Text.Spaces);
      |parts| >= 2 && parts[0] == NumberText(s)
      && ParseTimeUnit(parts[1]) == (if WordStart(s) == NumberEnd(s) + 1 then Some(WordUnit(s)) else None)
  {
    var b, c := NumberEnd(s), WordStart(s);
    WordsLayout(s);
    SplitSeparated(s, b, c);
    if c == b + 1 {
      WordUnitTail(s);
      UnitToken(s[c..], WordUnit(s));
    } else {
      NoEmptyUnit();
    }
  }

  /** The pieces parseAsWords reads exist. */
  lemma WordsSplit(s: string)
    requires WordFormat(s)
    ensures var parts := Text.Split(s, Text.Spaces);
      |parts| >= 1 && (Text.ParseInt(parts[0]).Some? ==> |parts| >= 2)
  {
    WordsLayout(s);
    if NumberStart(s) > 0 {
      SplitLeadingSpace(s, NumberStart(s));
    } else if NumberEnd(s) == WordStart(s) {
      SplitJoined(s, NumberEnd(s));
    } else {
      WordsSplitSeparated(s);
    }
  }

  /** What parseAsWords does with the white-space-separated pieces: the first
      read with Integer.parseInt, the second with parseTimeUnit. */
  function ReadWords(parts: seq<string>): (r: ParseResult)
    requires |parts| >= 1 && (Text.ParseInt(parts[0]).Some? ==> |parts| >= 2)
    ensures !r.Malformed?
  {
    match Text.ParseInt(parts[0])
    case None => BadNumber(parts[0])
    case Some(n) => Parsed(NormalizeSpan(SpanOf(n, ParseTimeUnit(parts[1]))))
  }

  /** Time.parseAsWords: split at every white-space character, read the first
      piece as the number and the second as the unit; the result is
      normalized. */
  function ParseAsWords(s: string): ParseResult
    requires WordFormat(s)
  {
    WordsSplit(s);
    ReadWords(Text.Split(s, Text.Spaces))
  }

  /** A first piece that is empty, or has a character other than a digit
      after its first, is no number for Integer.parseInt. */
  lemma NotANumber(p: string, b: nat)
    requires p == "" || (0 < b < |p| && !Text.IsDigit(p[b]))
    ensures Text.ParseInt(p).None?
  {
    if p != "" {
      assert p[1..][b - 1] == p[b];
    }
  }

  /** The first piece of a word-format text with white space before the
      number, or none between number and word, is no number. */
  lemma BadFirstPiece(s: string)
    requires WordFormat(s) && (NumberStart(s) > 0 || NumberEnd(s) == WordStart(s))
    ensures var parts := Text.Split(s, Text.Spaces); |parts| >= 1 && Text.ParseInt(parts[0]).None?
  {
    WordsLayout(s);
    var b := NumberEnd(s);
    if NumberStart(s) > 0 {
      SplitLeadingSpace(s, NumberStart(s));
    } else {
      SplitJoined(s, b);
    }
    NotANumber(Text.Split(s, Text.Spaces)[0], b);
  }

  /** Any white space before the number, or none between number and word,
      leaves Integer.parseInt a piece that is not a number. */
  lemma ParseWordsBadNumber(s: string)
    requires WordFormat(s) && (NumberStart(s) > 0 || NumberEnd(s) == WordStart(s))
    ensures ParseAsWords(s).BadNumber?
  {
    BadFirstPiece(s);
  }

  /** A number and its unit one white-space character apart are read as
      written. */
  lemma ParseWordsOneSpace(s: string)
    requires WordFormat(s) && NumberStart(s) == 0 && NumberEnd(s) + 1 == WordStart(s)
    requires Text.DigitsValue(NumberText(s)) <= Text.IntMax
    ensures ParseAsWords(s) == Parsed(NormalizeSpan(SpanOf(Text.DigitsValue(NumberText(s)), Some(WordUnit(s)))))
  {
    WordsSplitSeparated(s);
    var parts := Text.Split(s, Text.Spaces);
    assert Text.ParseInt(parts[0]) == Some(Text.DigitsValue(NumberText(s)));
  }

  /** More than one white-space character after the number leaves the unit
      unknown, which makes the Time zero. */
  lemma ParseWordsWideSpace(s: string)
    requires WordFormat(s) && NumberStart(s) == 0 && NumberEnd(s) + 1 < WordStart(s)
    requires Text.DigitsValue(NumberText(s)) <= Text.IntMax
    ensures ParseAsWords(s) == Parsed(Span(0, 0, 0, 0, 0))
  {
    WordsSplitSeparated(s);
    var parts := Text.Split(s, Text.Spaces);
    var n := Text.DigitsValue(NumberText(s));
    assert Text.ParseInt(parts[0]) == Some(n);
    assert ParseTimeUnit(parts[1]) == None;
    assert ParseAsWords(s) == Parsed(NormalizeSpan(SpanOf(n, None)));
    assert IsNormal(SpanOf(n, None));
  }

  // ----- The error offset when neither format matches

  /** The error-offset scan of Time.parse, from position i, with `digits`
      digits in the current group and `colons` colons seen: the position of
      the first character that breaks the (hh:)mm:ss shape, the length when
      the last group does not have two digits, and -1 when nothing is found. */
  function ScanFrom(s: string, i: nat, digits: int, colons: int): (r: int)
    requires i <= |s|
    ensures r == -1 || i <= r <= |s|
    ensures forall k :: i <= k < |s| && (r == -1 || k < r) ==> Text.IsDigit(s[k]) || s[k] == ':'
    decreases |s| - i
  {
    if i == |s| then (if digits != 2 then |s| else -1)
    else if Text.IsDigit(s[i]) then
      if digits + 1 > 2 || colons > 2 then i else ScanFrom(s, i + 1, digits + 1, colons)
    else if s[i] == ':' then
      if colons + 1 >= 2 && digits < 2 then i
      else if colons + 1 > 2 then i
      else ScanFrom(s, i + 1, 0, colons + 1)
    else i
  }

  /** The offset reported for a text with a colon that is not a clock. */
  function ClockErrorOffset(s: string): int
  {
    ScanFrom(s, 0, 0, 0)
  }

  /** The offset reported for a text without a colon: the start of the word
      when the text is white space, a number, white space and word
      characters; otherwise 0. */
  function WordErrorOffset(s: string): (r: int)
    ensures 0 <= r <= |s|
    ensures r > 0 ==> NumberStart(s) < NumberEnd(s) && Text.AllWordChars(s[r..])
  {
    if NumberStart(s) < NumberEnd(s) && Text.AllWordChars(s[WordStart(s)..]) then WordStart(s) else 0
  }

  /** Time.parse, on values. */
  function ParseText(s: string): ParseResult
  {
    if ClockFormat(s) then Parsed(ParseAsClock(s))
    else if WordFormat(s) then ParseAsWords(s)
    else if ':' in s then Malformed(ClockErrorOffset(s))
    else Malformed(WordErrorOffset(s))
  }

  /** The message of the ParseException Time.parse throws for a text. */
  function FailureMessage(s: string): string
  {
    "Failed to parse the string \"" + s + "\" as a time"
  }

  /** Time.parse: the clock format first, then the word format, otherwise a
      ParseException whose offset is found by scanning the text. */
  method Parse(s: string) returns (r: ParseResult)
    ensures r == ParseText(s)
  {
    if ClockFormat(s) {
      return Parsed(ParseAsClock(s));
    } else if WordFormat(s) {
      return ParseAsWords(s);
    }
    var errorOffset := -1;
    if ':' in s {
      var digitCount, colonCount := 0, 0;
      var i := 0;
      while i < |s|
        invariant 0 <= i <= |s| && errorOffset == -1
        invariant ScanFrom(s, i, digitCount, colonCount) == ClockErrorOffset(s)
      {
        var c := s[i];
        if Text.IsDigit(c) {
          digitCount := digitCount + 1;
        } else if c == ':' {
          colonCount := colonCount + 1;
          if colonCount >= 2 && digitCount < 2 {
            errorOffset := i;
            break;
          }
          digitCount := 0;
        } else {
          errorOffset := i;
          break;
        }
        if digitCount > 2 || colonCount > 2 {
          errorOffset := i;
          break;
        }
        i := i + 1;
      }
      if errorOffset == -1 && digitCount != 2 {
        errorOffset := |s|;
      }
    } else {
      errorOffset := WordErrorOffset(s);
    }
    r := Malformed(errorOffset);
  }

  /** A ParseException's offset is a position in the text, or -1. */
  lemma MalformedOffset(s: string)
    requires ParseText(s).Malformed?
    ensures var k := ParseText(s).offset; k == -1 || 0 <= k <= |s|
    ensures var k := ParseText(s).offset; 0 <= k < |s| && ':' in s ==> forall j :: 0 <= j < k ==> Text.IsDigit(s[j]) || s[j] == ':'
  {
  }

  lemma ShortClock(m: string, sec: string)
    requires |m| == 2 && |sec| == 2 && Text.AllDigits(m) && Text.AllDigits(sec)
    ensures var s := m + ":" + sec; ClockFormat(s) && ClockGroups(s) == [m, sec]
  {
    var s := m + ":" + sec;
    assert s[0] == m[0] && s[1] == m[1];
    assert LeadLength(s) == 2;
    assert s[2..] == ":" + sec;
    assert s[..2] == m && s[3..5] == sec;
  }

  lemma LongClock(h: string, m: string, sec: string)
    requires |h| == 2 && |m| == 2 && |sec| == 2 && Text.AllDigits(h) && Text.AllDigits(m) && Text.AllDigits(sec)
    ensures var s := h + ":" + m + ":" + sec; ClockFormat(s) && ClockGroups(s) == [h, m, sec]
  {
    var s := h + ":" + m + ":" + sec;
    assert s[0] == h[0] && s[1] == h[1];
    assert LeadLength(s) == 2;
    var tail := s[2..];
    assert tail == ":" + m + ":" + sec;
    assert tail[1] == m[0] && tail[2] == m[1] && tail[4] == sec[0] && tail[5] == sec[1];
    assert s[..2] == h && s[3..5] == m && s[6..8] == sec;
  }

  /** toString reads back through parse: a normal Time of less than a day is
      printed as [hh:]mm:ss and parsed to the same fields. */
  lemma ClockRoundTrip(t: Span)
    requires IsNormal(t) && t.weeks == 0 && t.days == 0
    ensures ClockFormat(ClockText(t)) && ParseAsClock(ClockText(t)) == t
    ensures ParseText(ClockText(t)) == Parsed(t)
  {
    var s := ClockText(t);
    var h, m, sec := Pad2(t.hours), Pad2(t.minutes), Pad2(t.seconds);
    if t.hours == 0 {
      assert s == m + ":" + sec;
      ShortClock(m, sec);
    } else {
      assert s == h + ":" + m + ":" + sec;
      LongClock(h, m, sec);
    }
    assert ClockFields(s) == t;
  }

  /** The clock format needs a colon. */
  lemma ClockHasColon(s: string)
    requires ClockFormat(s)
    ensures ':' in s
  {
    var n := LeadLength(s);
    assert s[n..][0] == ':' && s[n] == s[n..][0];
  }

  /** The runs of "n word": the number at the start, one space, the word. */
  lemma WordsRuns(d: string, word: string)
    requires |d| >= 1 && Text.AllDigits(d)
    requires |word| >= 1 && !Text.IsSpace(word[0]) && !Text.IsDigit(word[0])
    ensures var s := d + " " + word;
      NumberStart(s) == 0 && NumberEnd(s) == |d| && WordStart(s) == |d| + 1
      && NumberText(s) == d && s[WordStart(s)..] == word
  {
    var s := d + " " + word;
    assert s[0] == d[0];
    assert Text.SpaceRun(s, 0) == 0;
    assert forall k :: 0 <= k < |d| ==> s[k] == d[k];
    assert s[|d|] == ' ' && s[|d| + 1] == word[0];
    Text.DigitRunOver(s, 0, |d|);
    assert Text.SpaceRun(s, |d| + 1) == 0;
    assert Text.SpaceRun(s, |d|) == 1;
    assert s[|d| + 1..] == word;
    assert s[0..|d|] == d;
  }

  /** A unit word as written names its unit. */
  lemma WordTail(word: string, u: TimeUnit)
    requires word == SingularWord(u) || word == PluralWord(u)
    ensures UnitTailFor(word, u) && UnitTail(word)
    ensures |word| >= 1 && !Text.IsSpace(word[0]) && !Text.IsDigit(word[0])
  {
    var w := SingularWord(u);
    WordsLetters(u);
    assert forall k :: 0 <= k < |w| ==> word[k] == w[k];
    assert forall k :: 0 <= k < |w| ==> Text.LowerChar(word[k]) == word[k];
    UnitTailStart(word, u);
    match u
    case Weeks => case Days => case Hours => case Minutes => case Seconds =>
  }

  /** The shape of "n unit": the number at the start, one space, the word. */
  lemma WordsShape(d: string, word: string, u: TimeUnit)
    requires |d| >= 1 && Text.AllDigits(d)
    requires word == SingularWord(u) || word == PluralWord(u)
    ensures var s := d + " " + word;
      NumberStart(s) == 0 && NumberEnd(s) == |d| && WordStart(s) == |d| + 1
      && NumberText(s) == d && WordFormat(s) && WordUnit(s) == u
  {
    var s := d + " " + word;
    WordTail(word, u);
    WordsRuns(d, word);
    assert WordFormat(s);
    WordUnitTail(s);
    UnitWordsDistinct(word, WordUnit(s), u);
  }

  /** "n unit" has no colon in it. */
  lemma WordsHaveNoColon(d: string, word: string, u: TimeUnit)
    requires Text.AllDigits(d)
    requires word == SingularWord(u) || word == PluralWord(u)
    ensures ':' !in d + " " + word
  {
    var s := d + " " + word;
    WordsLetters(u);
    forall k | 0 <= k < |s| ensures s[k] != ':' {
      if k < |d| {
        assert s[k] == d[k];
      } else if k > |d| {
        assert s[k] == word[k - |d| - 1];
      }
    }
  }

  /** "n unit" as written by the XBMC encoder reads back as n of that unit. */
  lemma WordsRoundTrip(n: int, u: TimeUnit, word: string)
    requires 0 <= n <= Text.IntMax
    requires word == SingularWord(u) || word == PluralWord(u)
    ensures var s := Text.IntToDecimal(n) + " " + word;
      !ClockFormat(s) && WordFormat(s) && ParseAsWords(s) == Parsed(NormalizeSpan(SpanOf(n, Some(u))))
    ensures ParseText(Text.IntToDecimal(n) + " " + word) == Parsed(NormalizeSpan(SpanOf(n, Some(u))))
  {
    var d := Text.NatToDecimal(n);
    var s := d + " " + word;
    WordsShape(d, word, u);
    WordsHaveNoColon(d, word, u);
    if ClockFormat(s) {
      ClockHasColon(s);
    }
    ParseWordsOneSpace(s);
  }

  lemma FirstLetters(u: TimeUnit, v: TimeUnit)
    requires SingularWord(u)[0] == SingularWord(v)[0]
    ensures u == v
  {
  }

  /** A text is the unit word of at most one unit. */
  lemma UnitWordsDistinct(t: string, u: TimeUnit, v: TimeUnit)
    requires UnitTailFor(t, u) && UnitTailFor(t, v)
    ensures u == v
  {
    assert SingularWord(u)[0] == Text.LowerChar(t[0]) == SingularWord(v)[0];
    FirstLetters(u, v);
  }

  /** A clock-format text is read as the normal span of its fields. */
  lemma ClockParsed(s: string)
    requires ClockFormat(s)
    ensures ParseText(s) == Parsed(NormalizeSpan(ClockFields(s)))
  {
  }

  /** The value of a two-digit numeral. */
  lemma TwoDigits(p: string)
    requires |p| == 2 && Text.AllDigits(p)
    ensures Text.DigitsValue(p) == 10 * Text.DigitValue(p[0]) + Text.DigitValue(p[1])
  {
    var q := p[..1];
    assert q == [p[0]] && q[..0] == [];
    assert Text.DigitsValue(q) == Text.DigitValue(p[0]);
  }

  /** d:dd is a clock of minutes and seconds. */
  lemma ShortClockText(s: string)
    requires |s| == 4 && Text.IsDigit(s[0]) && s[1] == ':' && Text.IsDigit(s[2]) && Text.IsDigit(s[3])
    ensures ClockFormat(s)
    ensures ClockFields(s) == Span(0, 0, 0, Text.DigitValue(s[0]), 10 * Text.DigitValue(s[2]) + Text.DigitValue(s[3]))
  {
    assert LeadLength(s) == 1;
    var t := s[1..];
    assert ClockTail(t) by {
      forall k | 0 <= k < |t| ensures if k % 3 == 0 then t[k] == ':' else Text.IsDigit(t[k]) {
        assert t[k] == s[k + 1];
        assert k == 0 || k % 3 != 0;
      }
    }
    var g0, g1 := s[..1], s[2..4];
    assert ClockGroups(s) == [g0, g1];
    assert g0 == [s[0]] && g0[..0] == [];
    TwoDigits(g1);
  }

  /** d:dd:dd is a clock of hours, minutes and seconds. */
  lemma LongClockText(s: string)
    requires |s| == 7 && Text.IsDigit(s[0]) && s[1] == ':' && Text.IsDigit(s[2]) && Text.IsDigit(s[3])
    requires s[4] == ':' && Text.IsDigit(s[5]) && Text.IsDigit(s[6])
    ensures ClockFormat(s)
    ensures ClockFields(s) == Span(0, 0, Text.DigitValue(s[0]), 10 * Text.DigitValue(s[2]) + Text.DigitValue(s[3]),
      10 * Text.DigitValue(s[5]) + Text.DigitValue(s[6]))
  {
    assert LeadLength(s) == 1;
    var t := s[1..];
    assert ClockTail(t) by {
      forall k | 0 <= k < |t| ensures if k % 3 == 0 then t[k] == ':' else Text.IsDigit(t[k]) {
        assert t[k] == s[k + 1];
        assert (k == 0 || k == 3) == (k % 3 == 0);
      }
    }
    var g0, g1, g2 := s[..1], s[2..4], s[5..7];
    assert ClockGroups(s) == [g0, g1, g2];
    assert g0 == [s[0]] && g0[..0] == [];
    TwoDigits(g1);
    TwoDigits(g2);
  }

  /** "1:00" is one minute. */
  lemma ParseOneMinute()
    ensures ParseText("1:00") == Parsed(Span(0, 0, 0, 1, 0))
  {
    ShortClockText("1:00");
    ClockParsed("1:00");
  }

  /** "2:34:56" is 2 hours, 34 minutes and 56 seconds. */
  lemma ParseHoursMinutesSeconds()
    ensures ParseText("2:34:56") == Parsed(Span(0, 0, 2, 34, 56))
  {
    LongClockText("2:34:56");
    ClockParsed("2:34:56");
  }

  /** Digits followed by a colon are not in the word format. */
  lemma DigitsThenColon(s: string, b: nat)
    requires 0 < b < |s| && s[b] == ':' && forall k :: 0 <= k < b ==> Text.IsDigit(s[k])
    ensures !WordFormat(s)
  {
    assert Text.SpaceRun(s, 0) == 0;
    Text.DigitRunOver(s, 0, b);
    assert Text.SpaceRun(s, b) == 0;
    if WordFormat(s) {
      WordStartsWithLetter(s);
    }
  }

  /** A three-digit group is reported at its third digit. */
  lemma ParseTooManyHourDigits()
    ensures ParseText("100:12:45") == Malformed(2)
  {
    var s := "100:12:45";
    assert LeadLength(s) == 2 && |s[2..]| == 7;
    assert !ClockFormat(s);
    DigitsThenColon(s, 3);
    assert s[3] == ':';
  }

  lemma ParseTooManyMinuteDigits()
    ensures ParseText("1:123:45") == Malformed(4)
  {
    var s := "1:123:45";
    assert LeadLength(s) == 1 && |s[1..]| == 7;
    assert !ClockFormat(s);
    DigitsThenColon(s, 1);
  }

  lemma ParseTooManySecondDigits()
    ensures ParseText("1:13:450") == Malformed(7)
  {
    var s := "1:13:450";
    assert LeadLength(s) == 1 && |s[1..]| == 7;
    assert !ClockFormat(s);
    DigitsThenColon(s, 1);
  }

  /** A digit, a space and a word without a colon have no colon. */
  lemma NoColonInWords(d: char, word: string)
    requires Text.IsDigit(d) && ':' !in word
    ensures ':' !in [d] + " " + word
  {
    var s := [d] + " " + word;
    forall k | 0 <= k < |s| ensures s[k] != ':' {
      if k >= 2 {
        assert s[k] == word[k - 2];
      }
    }
  }

  /** A text without a colon whose word names no unit is reported at the start
      of the word. */
  lemma UnknownWord(s: string, d: char, word: string)
    requires s == [d] + " " + word && Text.IsDigit(d) && |word| >= 1
    requires Text.AllWordChars(word) && !Text.IsDigit(word[0]) && ':' !in word
    requires forall u :: !UnitTailFor(word, u)
    ensures ParseText(s) == Malformed(2)
  {
    WordsRuns([d], word);
    NoColonInWords(d, word);
    assert LeadLength(s) == 1 && s[1..][0] == ' ';
  }

  lemma ParseMisspelledDays()
    ensures ParseText("2 daays") == Malformed(2)
  {
    var w := "daays";
    assert forall u :: !UnitTailFor(w, u) by {
      assert Text.LowerChar(w[2]) == 'a';
    }
    UnknownWord("2 daays", '2', w);
  }

  lemma ParseMisspelledHours()
    ensures ParseText("3 hoors") == Malformed(2)
  {
    var w := "hoors";
    assert forall u :: !UnitTailFor(w, u) by {
      assert Text.LowerChar(w[2]) == 'o';
    }
    UnknownWord("3 hoors", '3', w);
  }

  lemma ParseMonths()
    ensures ParseText("4 months") == Malformed(2)
  {
    var w := "months";
    assert forall u :: !UnitTailFor(w, u) by {
      assert Text.LowerChar(w[1]) == 'o';
      assert Text.LowerChar(w[0]) == 'm';
    }
    UnknownWord("4 months", '4', w);
  }

  lemma OneWeekText()
    ensures Text.IntToDecimal(1) + " " + "week" == "1 week"
  {
    assert Text.NatToDecimal(1) == "1";
  }

  /** "1 week" is one week. */
  lemma ParseOneWeek()
    ensures ParseText("1 week") == Parsed(Span(1, 0, 0, 0, 0))
  {
    OneWeekText();
    WordsRoundTrip(1, Weeks, "week");
    assert IsNormal(Span(1, 0, 0, 0, 0));
  }
}
