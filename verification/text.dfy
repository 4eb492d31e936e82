/** The pieces of the Java string library the converters lean on, written out:
    ASCII digits and case, decimal rendering and Integer.parseInt, String.split
    with its trailing-empty-string rule, and String.compareTo. */
module Text {
  import opened Outcomes

  const IntMin: int := -0x8000_0000
  const IntMax: int := 0x7FFF_FFFF

  predicate IsDigit(c: char) { '0' <= c <= '9' }

  predicate AllDigits(s: string) { forall i :: 0 <= i < |s| ==> IsDigit(s[i]) }

  /** The characters Java regular expressions match with \s. */
  const Spaces: set<char> := {' ', '\t', '\n', '\U{000B}', '\U{000C}', '\r'}

  predicate IsSpace(c: char)
  {
    c in Spaces
  }

  /** The characters Java regular expressions match with \w. */
  predicate IsWordChar(c: char)
  {
    IsDigit(c) || 'a' <= c <= 'z' || 'A' <= c <= 'Z' || c == '_'
  }

  function DigitValue(c: char): nat
    requires IsDigit(c)
  {
    c as int - '0' as int
  }

  function DigitChar(d: nat): char
    requires d < 10
  {
    ('0' as int + d) as char
  }

  /** The value of a decimal numeral, most significant digit first; "" is 0. */
  function DigitsValue(s: string): nat
    requires AllDigits(s)
  {
    if s == [] then 0 else 10 * DigitsValue(s[..|s| - 1]) + DigitValue(s[|s| - 1])
  }

  lemma DigitsValueSnoc(s: string, c: char)
    requires AllDigits(s) && IsDigit(c)
    ensures AllDigits(s + [c]) && DigitsValue(s + [c]) == 10 * DigitsValue(s) + DigitValue(c)
  {
    assert (s + [c])[..|s|] == s;
  }

  /** Leading zeros do not change a numeral's value. */
  lemma {:induction false} DigitsValueLeadingZero(s: string)
    requires AllDigits(s)
    ensures AllDigits("0" + s) && DigitsValue("0" + s) == DigitsValue(s)
    decreases |s|
  {
    if s != [] {
      var init := s[..|s| - 1];
      DigitsValueLeadingZero(init);
      assert ("0" + s)[..|"0" + s| - 1] == "0" + init;
    }
  }

  /** Integer.toString of a non-negative value: no leading zeros, "0" for zero. */
  function NatToDecimal(n: nat): (s: string)
    ensures |s| >= 1 && AllDigits(s) && DigitsValue(s) == n
    ensures |s| == 1 <==> n < 10
    ensures |s| == 2 <==> 10 <= n < 100
    ensures n >= 10 ==> s[0] != '0'
  {
    if n < 10 then [DigitChar(n)]
    else
      var s := NatToDecimal(n / 10) + [DigitChar(n % 10)];
      DigitsValueSnoc(NatToDecimal(n / 10), DigitChar(n % 10));
      s
  }

  /** Integer.toString / Long.toString. */
  function IntToDecimal(i: int): string
  {
    if i < 0 then "-" + NatToDecimal(-i) else NatToDecimal(i)
  }

  /** Integer.parseInt on ASCII text: an optional sign, at least one digit and a
      value inside the 32-bit range; anything else is a NumberFormatException,
      modelled as None. */
  function ParseInt(s: string): (r: Option<int>)
    ensures r.Some? ==> IntMin <= r.value <= IntMax
    ensures r.Some? ==> |s| >= 1 && AllDigits(s[1..]) && (IsDigit(s[0]) || s[0] == '-' || s[0] == '+')
    ensures |s| > 0 && AllDigits(s) && DigitsValue(s) <= IntMax ==> r == Some(DigitsValue(s))
    ensures |s| > 0 && !IsDigit(s[0]) && s[0] != '-' && s[0] != '+' ==> r.None?
  {
    if |s| == 0 then None
    else if s[0] == '-' || s[0] == '+' then
      if |s| == 1 || !AllDigits(s[1..]) then None
      else
        var v: int := if s[0] == '-' then -(DigitsValue(s[1..]) as int) else DigitsValue(s[1..]);
        if IntMin <= v <= IntMax then Some(v) else None
    else if AllDigits(s) && DigitsValue(s) <= IntMax then Some(DigitsValue(s))
    else None
  }

  /** Integer.parseInt reads back what Integer.toString writes. */
  lemma ParseIntToDecimal(i: int)
    requires IntMin <= i <= IntMax
    ensures ParseInt(IntToDecimal(i)) == Some(i)
  {
    if i < 0 {
      assert IntToDecimal(i)[1..] == NatToDecimal(-i);
    }
  }

  function LowerChar(c: char): char
  {
    if 'A' <= c <= 'Z' then (c as int + 32) as char else c
  }

  /** ASCII lower-casing: the letters A-Z become a-z, nothing else changes. */
  function Lower(s: string): (r: string)
    ensures |r| == |s|
    ensures forall i :: 0 <= i < |s| ==> r[i] == LowerChar(s[i])
  {
    if s == [] then [] else [LowerChar(s[0])] + Lower(s[1..])
  }

  /** Text without capital letters is its own lower case. */
  lemma LowerNoCapitals(s: string)
    requires forall i :: 0 <= i < |s| ==> !('A' <= s[i] <= 'Z')
    ensures Lower(s) == s
  {
  }

  lemma LowerAppend(a: string, b: string)
    ensures Lower(a + b) == Lower(a) + Lower(b)
  {
    assert forall i :: 0 <= i < |a + b| ==> Lower(a + b)[i] == (Lower(a) + Lower(b))[i];
  }

  lemma LowerIdempotent(s: string)
    ensures Lower(Lower(s)) == Lower(s)
  {
  }

  predicate NoneOf(s: string, separators: set<char>)
  {
    forall i :: 0 <= i < |s| ==> s[i] !in separators
  }

  /** The position of the first separator in a text that has one. */
  function FirstSeparator(s: string, separators: set<char>): (f: nat)
    requires !NoneOf(s, separators)
    ensures f < |s| && s[f] in separators && NoneOf(s[..f], separators)
  {
    if s[0] in separators then 0
    else
      assert !NoneOf(s[1..], separators) by {
        var i :| 0 <= i < |s| && s[i] in separators;
        assert s[1..][i - 1] == s[i];
      }
      var g := FirstSeparator(s[1..], separators);
      assert forall i :: 1 <= i < g + 1 ==> s[i] == s[1..][..g][i - 1];
      g + 1
  }

  /** Any separator with none before it is the first one. */
  lemma FirstSeparatorIs(s: string, f: nat, separators: set<char>)
    requires f < |s| && s[f] in separators && NoneOf(s[..f], separators)
    ensures !NoneOf(s, separators) && FirstSeparator(s, separators) == f
  {
    assert !NoneOf(s, separators);
    var g := FirstSeparator(s, separators);
    assert forall i :: 0 <= i < g ==> s[i] == s[..g][i];
    assert forall i :: 0 <= i < f ==> s[i] == s[..f][i];
  }

  /** Cutting text at every separator character, keeping every piece (also
      the empty ones): the text up to the first separator, then the pieces of
      the rest. */
  function Pieces(s: string, separators: set<char>): (r: seq<string>)
    ensures |r| >= 1
    decreases |s|
  {
    if NoneOf(s, separators) then [s]
    else
      var f := FirstSeparator(s, separators);
      [s[..f]] + Pieces(s[f + 1..], separators)
  }

  function DropTrailingEmpty(pieces: seq<string>): (r: seq<string>)
    ensures |r| <= |pieces| && r == pieces[..|r|]
    ensures |r| > 0 ==> r[|r| - 1] != ""
    ensures forall k :: |r| <= k < |pieces| ==> pieces[k] == ""
  {
    if |pieces| > 0 && pieces[|pieces| - 1] == "" then DropTrailingEmpty(pieces[..|pieces| - 1])
    else pieces
  }

  /** String.split with a character-class pattern: a text with no separator
      comes back whole; otherwise the pieces between separators, with the
      trailing empty pieces removed. */
  function Split(s: string, separators: set<char>): (r: seq<string>)
  {
    if NoneOf(s, separators) then [s] else DropTrailingEmpty(Pieces(s, separators))
  }

  /** The pieces of a text are the text before its first separator followed
      by the pieces of the text after it. */
  lemma PiecesAtFirst(s: string, f: nat, separators: set<char>)
    requires f < |s| && s[f] in separators && NoneOf(s[..f], separators)
    ensures Pieces(s, separators) == [s[..f]] + Pieces(s[f + 1..], separators)
  {
    FirstSeparatorIs(s, f, separators);
  }

  /** With no separator before it, a separator cuts the text into exactly
      the text before it and the pieces after it. */
  lemma PiecesAtOnly(a: string, c: char, b: string, separators: set<char>)
    requires c in separators && NoneOf(a, separators)
    ensures Pieces(a + [c] + b, separators) == [a] + Pieces(b, separators)
  {
    var x := a + [c] + b;
    assert x[..|a|] == a && x[|a|] == c && x[|a| + 1..] == b;
    PiecesAtFirst(x, |a|, separators);
  }

  /** String.split of two separator-free texts joined by one separator. */
  lemma SplitTwo(a: string, c: char, b: string, separators: set<char>)
    requires c in separators && NoneOf(a, separators) && NoneOf(b, separators) && b != ""
    ensures Split(a + [c] + b, separators) == [a, b]
  {
    var x := a + [c] + b;
    PiecesAtOnly(a, c, b, separators);
    assert x[|a|] == c;
    assert DropTrailingEmpty([a, b]) == [a, b];
  }

  /** String.split of three separator-free texts joined by separators. */
  lemma SplitThree(a: string, c: char, b: string, d: char, e: string, separators: set<char>)
    requires c in separators && d in separators && e != ""
    requires NoneOf(a, separators) && NoneOf(b, separators) && NoneOf(e, separators)
    ensures Split(a + [c] + b + [d] + e, separators) == [a, b, e]
  {
    var x := a + [c] + b + [d] + e;
    assert x == a + [c] + (b + [d] + e);
    PiecesAtOnly(a, c, b + [d] + e, separators);
    PiecesAtOnly(b, d, e, separators);
    assert x[|a|] == c;
    assert DropTrailingEmpty([a, b, e]) == [a, b, e];
  }

  /** Some character of the text is not a separator. */
  predicate HasOther(s: string, separators: set<char>)
  {
    exists k :: 0 <= k < |s| && s[k] !in separators
  }

  /** The first piece runs up to the first separator. */
  lemma PiecesHead(s: string, g: nat, separators: set<char>)
    requires g <= |s| && NoneOf(s[..g], separators) && (g < |s| ==> s[g] in separators)
    ensures Pieces(s, separators)[0] == s[..g]
  {
    if g < |s| {
      PiecesAtFirst(s, g, separators);
    } else {
      assert s[..g] == s;
    }
  }

  /** A text with a character that is not a separator has a non-empty piece. */
  lemma {:induction false} PiecesNonEmpty(s: string, k: nat, separators: set<char>)
    requires k < |s| && s[k] !in separators
    ensures exists j :: 0 <= j < |Pieces(s, separators)| && Pieces(s, separators)[j] != ""
    decreases |s|
  {
    var ps := Pieces(s, separators);
    if NoneOf(s, separators) {
      assert ps[0] != "";
    } else {
      var f := FirstSeparator(s, separators);
      if k < f {
        assert ps[0] == s[..f] && s[..f][k] == s[k];
      } else {
        var t := s[f + 1..];
        assert t[k - f - 1] == s[k];
        PiecesNonEmpty(t, k - f - 1, separators);
        var j :| 0 <= j < |Pieces(t, separators)| && Pieces(t, separators)[j] != "";
        assert ps[j + 1] == Pieces(t, separators)[j];
      }
    }
  }

  /** Dropping the trailing empty pieces keeps every piece up to a non-empty one. */
  lemma DropKeeps(pieces: seq<string>, j: nat)
    requires j < |pieces| && pieces[j] != ""
    ensures |DropTrailingEmpty(pieces)| > j
    ensures forall i :: 0 <= i <= j ==> DropTrailingEmpty(pieces)[i] == pieces[i]
  {
  }

  /** Some piece after the first is not empty when the text after the first
      separator has a character that is not a separator. */
  lemma {:induction false} PiecesLaterNonEmpty(s: string, f: nat, separators: set<char>)
    requires f < |s| && s[f] in separators && NoneOf(s[..f], separators)
    requires HasOther(s[f + 1..], separators)
    ensures exists j :: 1 <= j < |Pieces(s, separators)| && Pieces(s, separators)[j] != ""
  {
    var rest := s[f + 1..];
    var ps, tail := Pieces(s, separators), Pieces(rest, separators);
    PiecesAtFirst(s, f, separators);
    assert ps == [s[..f]] + tail;
    var k :| 0 <= k < |rest| && rest[k] !in separators;
    PiecesNonEmpty(rest, k, separators);
    var j :| 0 <= j < |tail| && tail[j] != "";
    assert ps[j + 1] == tail[j] && j + 1 < |ps|;
  }

  /** A text with a separator that has a non-empty piece after the first
      separator keeps its first two pieces through String.split. */
  lemma SplitKeepsTwo(s: string, f: nat, separators: set<char>)
    requires f < |s| && s[f] in separators && NoneOf(s[..f], separators)
    requires HasOther(s[f + 1..], separators)
    ensures var r := Split(s, separators); var ps := Pieces(s, separators);
      |r| >= 2 && r[0] == ps[0] && r[1] == ps[1]
  {
    PiecesLaterNonEmpty(s, f, separators);
    var ps := Pieces(s, separators);
    var j :| 1 <= j < |ps| && ps[j] != "";
    assert !NoneOf(s, separators);
    DropKeeps(ps, j);
  }

  /** String.split around the first separator: the first piece is the text
      before it, and the second is the first piece of the text after it. */
  lemma SplitAtFirst(s: string, f: nat, separators: set<char>)
    requires f < |s| && s[f] in separators && NoneOf(s[..f], separators)
    ensures (s[..f] != "" || HasOther(s[f + 1..], separators)) ==> |Split(s, separators)| >= 1 && Split(s, separators)[0] == s[..f]
    ensures HasOther(s[f + 1..], separators) ==> |Split(s, separators)| >= 2 && Split(s, separators)[1] == Pieces(s[f + 1..], separators)[0]
  {
    PiecesAtFirst(s, f, separators);
    var ps := Pieces(s, separators);
    assert ps[0] == s[..f] && ps[1] == Pieces(s[f + 1..], separators)[0];
    if HasOther(s[f + 1..], separators) {
      SplitKeepsTwo(s, f, separators);
    } else if s[..f] != "" {
      assert !NoneOf(s, separators);
      DropKeeps(ps, 0);
    }
  }

  /** A separator followed by a separator-free text adds that text as the
      last piece. */
  lemma {:induction false} PiecesSnoc(a: string, c: char, b: string, separators: set<char>)
    requires c in separators && NoneOf(b, separators)
    ensures Pieces(a + [c] + b, separators) == Pieces(a, separators) + [b]
    decreases |a|
  {
    if NoneOf(a, separators) {
      PiecesAtOnly(a, c, b, separators);
      assert Pieces(b, separators) == [b];
    } else {
      var f := FirstSeparator(a, separators);
      var x, rest := a + [c] + b, a[f + 1..];
      assert x[..f] == a[..f] && x[f] == a[f];
      assert x[f + 1..] == rest + [c] + b;
      PiecesAtFirst(x, f, separators);
      PiecesAtFirst(a, f, separators);
      PiecesSnoc(rest, c, b, separators);
      var head, tail := [a[..f]], Pieces(rest, separators);
      assert head + (tail + [b]) == (head + tail) + [b];
    }
  }

  /** The last piece of a file name split at its dots, when String.split
      leaves more than one piece; None when it leaves one (or none). */
  function LastSegment(name: string): (r: Option<string>)
    ensures r.Some? ==> r.value != ""
  {
    var parts := Split(name, {'.'});
    if |parts| > 1 then Some(parts[|parts| - 1]) else None
  }

  /** A name ending in a dot and a non-empty, dot-free text has that text as
      its last segment, whatever comes before the dot. */
  lemma LastSegmentAfterDot(stem: string, ext: string)
    requires ext != "" && NoneOf(ext, {'.'})
    ensures LastSegment(stem + "." + ext) == Some(ext)
  {
    var x := stem + "." + ext;
    assert x == stem + ['.'] + ext;
    PiecesSnoc(stem, '.', ext, {'.'});
    assert x[|stem|] == '.';
    assert !NoneOf(x, {'.'});
    var ps := Pieces(stem, {'.'}) + [ext];
    assert DropTrailingEmpty(ps) == ps;
  }

  /** A name without a dot has no last segment. */
  lemma LastSegmentNoDot(name: string)
    requires NoneOf(name, {'.'})
    ensures LastSegment(name) == None
  {
  }

  /** The number of consecutive digits from position i on. */
  function DigitRun(s: string, i: nat): (n: nat)
    requires i <= |s|
    ensures i + n <= |s| && forall k :: i <= k < i + n ==> IsDigit(s[k])
    ensures i + n < |s| ==> !IsDigit(s[i + n])
    decreases |s| - i
  {
    if i < |s| && IsDigit(s[i]) then 1 + DigitRun(s, i + 1) else 0
  }

  /** A run of exactly len digits from position i on. */
  lemma {:induction false} DigitRunOver(s: string, i: nat, len: nat)
    requires i + len <= |s| && (forall k :: i <= k < i + len ==> IsDigit(s[k]))
    requires i + len < |s| ==> !IsDigit(s[i + len])
    ensures DigitRun(s, i) == len
    decreases len
  {
    if len > 0 {
      DigitRunOver(s, i + 1, len - 1);
    }
  }

  predicate AllWordChars(s: string) { forall i :: 0 <= i < |s| ==> IsWordChar(s[i]) }

  /** The number of consecutive \s characters from position i on. */
  function SpaceRun(s: string, i: nat): (n: nat)
    requires i <= |s|
    ensures i + n <= |s| && forall k :: i <= k < i + n ==> IsSpace(s[k])
    ensures i + n < |s| ==> !IsSpace(s[i + n])
    decreases |s| - i
  {
    if i < |s| && IsSpace(s[i]) then 1 + SpaceRun(s, i + 1) else 0
  }

  /** String.compareTo: the difference of the first differing characters, or
      else the difference of the lengths. */
  function CompareTo(a: string, b: string): int
  {
    if a == [] || b == [] then |a| - |b|
    else if a[0] != b[0] then a[0] as int - b[0] as int
    else CompareTo(a[1..], b[1..])
  }

  lemma {:induction false} CompareToAntisymmetric(a: string, b: string)
    ensures CompareTo(a, b) == -CompareTo(b, a)
    decreases |a|
  {
    if a != [] && b != [] && a[0] == b[0] {
      CompareToAntisymmetric(a[1..], b[1..]);
    }
  }

  lemma {:induction false} CompareToZero(a: string, b: string)
    ensures CompareTo(a, b) == 0 <==> a == b
    decreases |a|
  {
    if a != [] && b != [] && a[0] == b[0] {
      CompareToZero(a[1..], b[1..]);
      assert a == [a[0]] + a[1..] && b == [b[0]] + b[1..];
    }
  }

  lemma {:induction false} CompareToTransitive(a: string, b: string, c: string)
    requires CompareTo(a, b) < 0 && CompareTo(b, c) < 0
    ensures CompareTo(a, c) < 0
    decreases |a|
  {
    if a != [] && b != [] && c != [] && a[0] == b[0] && b[0] == c[0] {
      CompareToTransitive(a[1..], b[1..], c[1..]);
    }
  }

  /** String.compareToIgnoreCase, with ASCII case folding. */
  function CompareToIgnoreCase(a: string, b: string): int
  {
    CompareTo(Lower(a), Lower(b))
  }
}
