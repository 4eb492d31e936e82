/** Calendar dates as the converters read and write them with SimpleDateFormat:
    "yyyy-MM-dd" for XBMC playlists and "yyyy/MM/dd" for GMMP playlists. A
    date is represented by the three numbers the pattern names. */
module Dates {
  import opened Outcomes
  import Text

  datatype Date = Date(year: nat, month: nat, day: nat)

  /** k zero digits. */
  function Zeros(k: nat): (z: string)
    ensures |z| == k && forall i :: 0 <= i < k ==> z[i] == '0'
  {
    if k == 0 then [] else "0" + Zeros(k - 1)
  }

  lemma {:induction false} ZerosValue(k: nat, s: string)
    requires Text.AllDigits(s)
    ensures Text.AllDigits(Zeros(k) + s) && Text.DigitsValue(Zeros(k) + s) == Text.DigitsValue(s)
  {
    if k > 0 {
      ZerosValue(k - 1, s);
      assert Zeros(k) + s == "0" + (Zeros(k - 1) + s);
      Text.DigitsValueLeadingZero(Zeros(k - 1) + s);
    } else {
      assert Zeros(k) + s == s;
    }
  }

  /** A number printed by a pattern letter repeated width times: at least
      width digits, zero-padded on the left. */
  function Padded(n: nat, width: nat): (s: string)
    ensures |s| >= 1 && |s| >= width && Text.AllDigits(s) && Text.DigitsValue(s) == n
  {
    var d := Text.NatToDecimal(n);
    if |d| >= width then d
    else
      ZerosValue(width - |d|, d);
      Zeros(width - |d|) + d
  }

  /** DateFormat.format with the pattern yyyy<sep>MM<sep>dd. */
  function Format(d: Date, sep: char): string
  {
    Padded(d.year, 4) + [sep] + Padded(d.month, 2) + [sep] + Padded(d.day, 2)
  }

  /** The value of the n digits a text starts with. */
  function Numeral(s: string, n: nat): nat
    requires n <= |s| && forall k :: 0 <= k < n ==> Text.IsDigit(s[k])
  {
    assert Text.AllDigits(s[..n]) by {
      forall k | 0 <= k < n ensures Text.IsDigit(s[..n][k]) {
        assert s[..n][k] == s[k];
      }
    }
    Text.DigitsValue(s[..n])
  }

  /** DateFormat.parse with the pattern yyyy<sep>MM<sep>dd: three runs of
      digits with the separator between them, read from the start of the text;
      whatever follows the day is ignored. A failure is a ParseException whose
      error offset is the position where the text stops matching. */
  function Parse(s: string, sep: char): (r: Result<Date, nat>)
    ensures r.Err? ==> r.error <= |s|
    ensures r.Ok? ==> |s| >= 5 && Text.IsDigit(s[0])
  {
    var a := Text.DigitRun(s, 0);
    if a == 0 then Err(0)
    else if a == |s| || s[a] != sep then Err(a)
    else
      var t := s[a + 1..];
      var b := Text.DigitRun(t, 0);
      if b == 0 then Err(a + 1)
      else if b == |t| || t[b] != sep then Err(a + 1 + b)
      else
        var u := t[b + 1..];
        var c := Text.DigitRun(u, 0);
        if c == 0 then Err(a + b + 2)
        else Ok(Date(Numeral(s, a), Numeral(t, b), Numeral(u, c)))
  }

  /** The message of the ParseException DateFormat.parse throws for a text. */
  function FailureMessage(s: string): string
  {
    "Unparseable date: \"" + s + "\""
  }

  /** A numeral followed by a non-digit: the run of digits is the numeral. */
  lemma LeadingNumeral(x: string, c: char, rest: string)
    requires |x| >= 1 && Text.AllDigits(x) && !Text.IsDigit(c)
    ensures var s := x + [c] + rest;
      Text.DigitRun(s, 0) == |x| && s[|x|] == c && s[|x| + 1..] == rest
      && Numeral(s, |x|) == Text.DigitsValue(x)
  {
    var s := x + [c] + rest;
    assert forall k :: 0 <= k < |x| ==> s[k] == x[k];
    Text.DigitRunOver(s, 0, |x|);
    assert s[..|x|] == x;
    assert s[|x| + 1..] == rest;
  }

  /** A numeral on its own. */
  lemma WholeNumeral(x: string)
    requires |x| >= 1 && Text.AllDigits(x)
    ensures Text.DigitRun(x, 0) == |x| && Numeral(x, |x|) == Text.DigitsValue(x)
  {
    Text.DigitRunOver(x, 0, |x|);
    assert x[..|x|] == x;
  }

  /** Three numerals joined by a non-digit separator read back as their values. */
  lemma ParseFields(y: string, m: string, dd: string, sep: char)
    requires |y| >= 1 && |m| >= 1 && |dd| >= 1 && !Text.IsDigit(sep)
    requires Text.AllDigits(y) && Text.AllDigits(m) && Text.AllDigits(dd)
    ensures Parse(y + [sep] + m + [sep] + dd, sep)
      == Ok(Date(Text.DigitsValue(y), Text.DigitsValue(m), Text.DigitsValue(dd)))
  {
    var t := m + [sep] + dd;
    var s := y + [sep] + t;
    assert y + [sep] + m + [sep] + dd == s;
    LeadingNumeral(y, sep, t);
    LeadingNumeral(m, sep, dd);
    WholeNumeral(dd);
    assert s[|y| + 1..] == t && t[|m| + 1..] == dd;
    assert |y| < |s| && s[|y|] == sep && |m| < |t| && t[|m|] == sep;
    assert Parse(s, sep) == Ok(Date(Numeral(s, |y|), Numeral(t, |m|), Numeral(dd, |dd|)));
  }

  /** What format writes, parse reads back, whichever non-digit separates the
      fields. */
  lemma ParseFormat(d: Date, sep: char)
    requires !Text.IsDigit(sep)
    ensures Parse(Format(d, sep), sep) == Ok(d)
  {
    ParseFields(Padded(d.year, 4), Padded(d.month, 2), Padded(d.day, 2), sep);
  }

  /** A year followed by anything but the separator and a digit is rejected at
      the position right after the year: "2014/01/01" read as yyyy-MM-dd fails
      at offset 4. */
  lemma ParseWrongSeparator(year: string, c: char, rest: string, sep: char)
    requires |year| >= 1 && Text.AllDigits(year) && c != sep && !Text.IsDigit(c)
    ensures Parse(year + [c] + rest, sep) == Err(|year|)
  {
    LeadingNumeral(year, c, rest);
  }
}
