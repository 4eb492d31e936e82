/** A length of time kept as weeks, days, hours, minutes and seconds, the way
    the converters carry durations ("in the last 2 weeks", a track length of
    3:45). The value side (Span and the functions on it) specifies the class
    Time, whose methods update the five fields in place. */
module Time {
  import opened Outcomes
  import Text

  /** Units of time, finest first. */
  datatype TimeUnit = Seconds | Minutes | Hours | Days | Weeks

  /** The order the source compares units by: finer units rank lower. */
  function Rank(u: TimeUnit): nat
  {
    match u
    case Seconds => 0
    case Minutes => 1
    case Hours => 2
    case Days => 3
    case Weeks => 4
  }

  function SecondsPer(u: TimeUnit): nat
  {
    match u
    case Seconds => 1
    case Minutes => 60
    case Hours => 3600
    case Days => 86400
    case Weeks => 604800
  }

  /** TimeUnit.min: the finer of two units; on a tie the second argument. */
  function Min(a: TimeUnit, b: TimeUnit): (r: TimeUnit)
    ensures r == a || r == b
    ensures Rank(r) <= Rank(a) && Rank(r) <= Rank(b)
  {
    if Rank(a) < Rank(b) then a else b
  }

  function SingularWord(u: TimeUnit): string
  {
    match u
    case Seconds => "second"
    case Minutes => "minute"
    case Hours => "hour"
    case Days => "day"
    case Weeks => "week"
  }

  function PluralWord(u: TimeUnit): string
  {
    SingularWord(u) + "s"
  }

  /** The words TimeUnit.parseTimeUnit knows, already lower-case. */
  const UnitWords: map<string, TimeUnit> := map[
    "second" := Seconds, "seconds" := Seconds,
    "minute" := Minutes, "minutes" := Minutes,
    "hour" := Hours, "hours" := Hours,
    "day" := Days, "days" := Days,
    "week" := Weeks, "weeks" := Weeks]

  /** The unit words are made of lower-case letters. */
  lemma WordsLetters(u: TimeUnit)
    ensures forall k :: 0 <= k < |SingularWord(u)| ==> 'a' <= SingularWord(u)[k] <= 'z'
    ensures forall k :: 0 <= k < |PluralWord(u)| ==> 'a' <= PluralWord(u)[k] <= 'z'
  {
  }

  /** The unit words are written in lower case. */
  lemma WordsLowerCase(u: TimeUnit)
    ensures Text.Lower(SingularWord(u)) == SingularWord(u)
    ensures Text.Lower(PluralWord(u)) == PluralWord(u)
  {
    Text.LowerNoCapitals(SingularWord(u));
    Text.LowerNoCapitals(PluralWord(u));
  }

  /** Each unit's two words are in the table, and nothing else is. */
  lemma UnitWordsTable()
    ensures forall u :: SingularWord(u) in UnitWords && UnitWords[SingularWord(u)] == u
    ensures forall u :: PluralWord(u) in UnitWords && UnitWords[PluralWord(u)] == u
    ensures forall w :: w in UnitWords ==> w == SingularWord(UnitWords[w]) || w == PluralWord(UnitWords[w])
  {
    UnitWordsOnly();
    forall u ensures SingularWord(u) in UnitWords && UnitWords[SingularWord(u)] == u
      && PluralWord(u) in UnitWords && UnitWords[PluralWord(u)] == u {
      match u
      case Seconds => assert PluralWord(u) == "seconds";
      case Minutes => assert PluralWord(u) == "minutes";
      case Hours => assert PluralWord(u) == "hours";
      case Days => assert PluralWord(u) == "days";
      case Weeks => assert PluralWord(u) == "weeks";
    }
  }

  lemma UnitWordsOnly()
    ensures forall w :: w in UnitWords ==> w == SingularWord(UnitWords[w]) || w == PluralWord(UnitWords[w])
  {
    assert UnitWords.Keys == {"second", "seconds", "minute", "minutes", "hour", "hours", "day", "days", "week", "weeks"};
  }

  /** TimeUnit.parseTimeUnit: the unit named by a singular or plural word,
      ignoring case; None for any other word. */
  function ParseTimeUnit(word: string): (r: Option<TimeUnit>)
    ensures r.Some? ==> Text.Lower(word) == SingularWord(r.value) || Text.Lower(word) == PluralWord(r.value)
    ensures r.None? ==> forall u :: Text.Lower(word) != SingularWord(u) && Text.Lower(word) != PluralWord(u)
  {
    UnitWordsTable();
    var w := Text.Lower(word);
    if w in UnitWords then Some(UnitWords[w]) else None
  }

  /** Every unit is read back from both of its words, in any letter case. */
  lemma {:induction false} ParseTimeUnitWords(u: TimeUnit, word: string)
    requires Text.Lower(word) == SingularWord(u) || Text.Lower(word) == PluralWord(u)
    ensures ParseTimeUnit(word) == Some(u)
  {
    UnitWordsTable();
  }

  /** The five fields of a Time. */
  datatype Span = Span(weeks: int, days: int, hours: int, minutes: int, seconds: int)

  /** A span with one unit set, as Time(number, unit) starts out; with no
      unit every field stays zero. */
  function SpanOf(number: int, unit: Option<TimeUnit>): Span
  {
    match unit
    case None => Span(0, 0, 0, 0, 0)
    case Some(Seconds) => Span(0, 0, 0, 0, number)
    case Some(Minutes) => Span(0, 0, 0, number, 0)
    case Some(Hours) => Span(0, 0, number, 0, 0)
    case Some(Days) => Span(0, number, 0, 0, 0)
    case Some(Weeks) => Span(number, 0, 0, 0, 0)
  }

  /** A span of one unit is that many times the unit's length. */
  lemma SpanOfTotal(number: int, u: TimeUnit)
    ensures TotalSeconds(SpanOf(number, Some(u))) == number * SecondsPer(u)
  {
    match u
    case Seconds =>
    case Minutes => assert TotalSeconds(Span(0, 0, 0, number, 0)) == 60 * number;
    case Hours => assert TotalSeconds(Span(0, 0, number, 0, 0)) == 3600 * number;
    case Days => assert TotalSeconds(Span(0, number, 0, 0, 0)) == 86400 * number;
    case Weeks => assert TotalSeconds(Span(number, 0, 0, 0, 0)) == 604800 * number;
  }

  function Component(t: Span, u: TimeUnit): int
  {
    match u
    case Seconds => t.seconds
    case Minutes => t.minutes
    case Hours => t.hours
    case Days => t.days
    case Weeks => t.weeks
  }

  /** The length of time a span stands for. */
  function TotalSeconds(t: Span): int
  {
    t.seconds + 60 * t.minutes + 3600 * t.hours + 86400 * t.days + 604800 * t.weeks
  }

  predicate NonNegative(t: Span)
  {
    t.weeks >= 0 && t.days >= 0 && t.hours >= 0 && t.minutes >= 0 && t.seconds >= 0
  }

  /** Every unit below weeks holds less than one of the next unit. */
  predicate IsNormal(t: Span)
  {
    NonNegative(t) && t.seconds < 60 && t.minutes < 60 && t.hours < 24 && t.days < 7
  }

  /** One step of Time.normalize: whole minutes move out of the seconds,
      but only when there is at least one. */
  function CarrySeconds(t: Span): (r: Span)
    ensures TotalSeconds(r) == TotalSeconds(t)
    ensures r.hours == t.hours && r.days == t.days && r.weeks == t.weeks
    ensures NonNegative(t) ==> NonNegative(r) && r.seconds < 60
    ensures IsNormal(t) ==> r == t
  {
    if t.seconds >= 60 then t.(minutes := t.minutes + t.seconds / 60, seconds := t.seconds % 60) else t
  }

  function CarryMinutes(t: Span): (r: Span)
    ensures TotalSeconds(r) == TotalSeconds(t)
    ensures r.seconds == t.seconds && r.days == t.days && r.weeks == t.weeks
    ensures NonNegative(t) ==> NonNegative(r) && r.minutes < 60
    ensures IsNormal(t) ==> r == t
  {
    if t.minutes >= 60 then t.(hours := t.hours + t.minutes / 60, minutes := t.minutes % 60) else t
  }

  function CarryHours(t: Span): (r: Span)
    ensures TotalSeconds(r) == TotalSeconds(t)
    ensures r.seconds == t.seconds && r.minutes == t.minutes && r.weeks == t.weeks
    ensures NonNegative(t) ==> NonNegative(r) && r.hours < 24
    ensures IsNormal(t) ==> r == t
  {
    if t.hours >= 24 then t.(days := t.days + t.hours / 24, hours := t.hours % 24) else t
  }

  function CarryDays(t: Span): (r: Span)
    ensures TotalSeconds(r) == TotalSeconds(t)
    ensures r.seconds == t.seconds && r.minutes == t.minutes && r.hours == t.hours
    ensures NonNegative(t) ==> NonNegative(r) && r.days < 7
    ensures IsNormal(t) ==> r == t
  {
    if t.days >= 7 then t.(weeks := t.weeks + t.days / 7, days := t.days % 7) else t
  }

  /** Time.normalize: carries each unit into the next one up, seconds first,
      each only where it holds at least a whole one of the next unit. */
  function NormalizeSpan(t: Span): (r: Span)
    ensures TotalSeconds(r) == TotalSeconds(t)
    ensures NonNegative(t) ==> IsNormal(r)
    ensures IsNormal(t) ==> r == t
  {
    CarryDays(CarryHours(CarryMinutes(CarrySeconds(t))))
  }

  /** The normal span of a number of seconds, worked out independently of
      NormalizeSpan, by repeated division. */
  function FromTotal(n: nat): (r: Span)
    ensures IsNormal(r) && TotalSeconds(r) == n
  {
    var m := n / 60;
    var h := m / 60;
    var d := h / 24;
    Span(d / 7, d % 7, h % 24, m % 60, n % 60)
  }

  /** A normal span is the only normal span of its length. */
  lemma NormalIsFromTotal(t: Span)
    requires IsNormal(t)
    ensures TotalSeconds(t) >= 0 && FromTotal(TotalSeconds(t)) == t
  {
    var n := TotalSeconds(t);
    var m := t.minutes + 60 * t.hours + 1440 * t.days + 10080 * t.weeks;
    var h := t.hours + 24 * t.days + 168 * t.weeks;
    var d := t.days + 7 * t.weeks;
    assert n == 60 * m + t.seconds;
    assert n / 60 == m && n % 60 == t.seconds;
    assert m == 60 * h + t.minutes;
    assert m / 60 == h && m % 60 == t.minutes;
    assert h == 24 * d + t.hours;
    assert h / 24 == d && h % 24 == t.hours;
    assert d / 7 == t.weeks && d % 7 == t.days;
  }

  lemma NormalUnique(a: Span, b: Span)
    requires IsNormal(a) && IsNormal(b) && TotalSeconds(a) == TotalSeconds(b)
    ensures a == b
  {
    NormalIsFromTotal(a);
    NormalIsFromTotal(b);
  }

  /** Normalizing a span with no negative field gives the one normal span of
      the same length. */
  lemma NormalizeIsFromTotal(t: Span)
    requires NonNegative(t)
    ensures TotalSeconds(t) >= 0 && NormalizeSpan(t) == FromTotal(TotalSeconds(t))
  {
    NormalIsFromTotal(NormalizeSpan(t));
  }

  /** The part of a normal span below one day: what is left of its length
      after the whole days, and the span itself when it is shorter than a day. */
  lemma TimeOfDay(t: Span)
    requires IsNormal(t)
    ensures var r := t.(weeks := 0, days := 0);
      TotalSeconds(r) == TotalSeconds(t) % 86400
      && (TotalSeconds(t) < 86400 ==> r == t)
  {
    var r := t.(weeks := 0, days := 0);
    var k := t.days + 7 * t.weeks;
    assert TotalSeconds(t) == TotalSeconds(r) + 86400 * k;
    assert 0 <= TotalSeconds(r) < 86400;
    RemainderAfterDays(TotalSeconds(r), k);
  }

  lemma RemainderAfterDays(r: int, k: int)
    requires 0 <= r < 86400
    ensures (r + 86400 * k) % 86400 == r
  {
    var x := r + 86400 * k;
    var q := x / 86400;
    assert x == 86400 * q + x % 86400;
    assert 86400 * (q - k) == r - x % 86400;
  }

  /** Normalizing twice is normalizing once. */
  lemma NormalizeIdempotent(t: Span)
    requires NonNegative(t)
    ensures NormalizeSpan(NormalizeSpan(t)) == NormalizeSpan(t)
  {
  }

  /** Time.deNormalize: every unit above `largest` is folded into `largest`
      and zeroed; the finer units stay as they are. */
  function DeNormalizeSpan(t: Span, largest: TimeUnit): (r: Span)
    ensures TotalSeconds(r) == TotalSeconds(t)
    ensures forall v :: Rank(v) > Rank(largest) ==> Component(r, v) == 0
    ensures forall v :: Rank(v) < Rank(largest) ==> Component(r, v) == Component(t, v)
  {
    var days := t.days + 7 * t.weeks;
    var hours := t.hours + 24 * days;
    var minutes := t.minutes + 60 * hours;
    match largest
    case Weeks => t
    case Days => Span(0, days, t.hours, t.minutes, t.seconds)
    case Hours => Span(0, 0, hours, t.minutes, t.seconds)
    case Minutes => Span(0, 0, 0, minutes, t.seconds)
    case Seconds => Span(0, 0, 0, 0, t.seconds + 60 * minutes)
  }

  /** The finest unit below weeks holding a positive amount, or weeks when
      none does: the finest unit getLargestUnit may not fold away. */
  function FinestInUse(t: Span): (u: TimeUnit)
    ensures forall v :: Rank(v) < Rank(u) ==> Component(t, v) <= 0
    ensures u != Weeks ==> Component(t, u) > 0
  {
    if t.seconds > 0 then Seconds
    else if t.minutes > 0 then Minutes
    else if t.hours > 0 then Hours
    else if t.days > 0 then Days
    else Weeks
  }

  /** A number together with the unit it counts. */
  datatype Amount = Amount(amount: int, unit: TimeUnit)

  /** The coarsest non-zero field, or the seconds when all the others are zero. */
  function CoarsestField(t: Span): Amount
  {
    if t.weeks != 0 then Amount(t.weeks, Weeks)
    else if t.days != 0 then Amount(t.days, Days)
    else if t.hours != 0 then Amount(t.hours, Hours)
    else if t.minutes != 0 then Amount(t.minutes, Minutes)
    else Amount(t.seconds, Seconds)
  }

  /** The unit getLargestUnit folds everything above into. */
  function TargetUnit(t: Span, largestAllowed: TimeUnit): TimeUnit
  {
    Min(largestAllowed, FinestInUse(t))
  }

  /** The fields of a Time after getLargestUnit(largestAllowed). */
  function LargestUnitState(t: Span, largestAllowed: TimeUnit): Span
  {
    DeNormalizeSpan(t, TargetUnit(t, largestAllowed))
  }

  lemma SingleComponentTotal(a: Span, u: TimeUnit)
    requires forall v :: v != u ==> Component(a, v) == 0
    ensures TotalSeconds(a) == Component(a, u) * SecondsPer(u)
  {
    assert Component(a, Seconds) == a.seconds && Component(a, Minutes) == a.minutes;
    assert Component(a, Hours) == a.hours && Component(a, Days) == a.days && Component(a, Weeks) == a.weeks;
  }

  /** Without negative fields, getLargestUnit leaves a single field set: the
      one of the unit it folded into. */
  lemma FoldedIntoOneField(t: Span, largestAllowed: TimeUnit)
    requires NonNegative(t)
    ensures var u := TargetUnit(t, largestAllowed);
            var a := LargestUnitState(t, largestAllowed);
            (forall v :: v != u ==> Component(a, v) == 0)
            && TotalSeconds(t) == Component(a, u) * SecondsPer(u)
            && Component(a, u) >= 0
  {
    var u := TargetUnit(t, largestAllowed);
    var a := LargestUnitState(t, largestAllowed);
    forall v | v != u ensures Component(a, v) == 0 {
      if Rank(v) < Rank(u) {
        assert Component(a, v) == Component(t, v);
      }
    }
    SingleComponentTotal(a, u);
    assert TotalSeconds(t) >= 0;
  }

  /** The coarsest field of a span never lies above a unit whose coarser
      fields are all zero; with one field set, it is that field. */
  lemma CoarsestFieldOf(a: Span, u: TimeUnit)
    requires forall v :: Rank(v) > Rank(u) ==> Component(a, v) == 0
    ensures Rank(CoarsestField(a).unit) <= Rank(u)
    ensures ((forall v :: v != u ==> Component(a, v) == 0) && Component(a, u) != 0)
      ==> CoarsestField(a) == Amount(Component(a, u), u)
    ensures ((forall v :: v != u ==> Component(a, v) == 0) && Component(a, u) == 0)
      ==> CoarsestField(a) == Amount(0, Seconds)
  {
    assert Component(a, Weeks) == a.weeks && Component(a, Days) == a.days && Component(a, Hours) == a.hours;
    assert Component(a, Minutes) == a.minutes && Component(a, Seconds) == a.seconds;
  }

  /** getLargestUnit(largestAllowed): the time as one number of one unit no
      coarser than largestAllowed. For a span without negative fields the
      number of that unit is exactly the span's length, and when the span is
      not empty the unit is the one the span was folded into. */
  function LargestUnitOf(t: Span, largestAllowed: TimeUnit): (r: Amount)
    ensures Rank(r.unit) <= Rank(largestAllowed)
    ensures NonNegative(t) ==> r.amount >= 0 && r.amount * SecondsPer(r.unit) == TotalSeconds(t)
    ensures NonNegative(t) && TotalSeconds(t) > 0 ==> r.unit == TargetUnit(t, largestAllowed)
  {
    var u := TargetUnit(t, largestAllowed);
    var a := LargestUnitState(t, largestAllowed);
    CoarsestFieldOf(a, u);
    if NonNegative(t) then FoldedIntoOneField(t, largestAllowed); CoarsestField(a)
    else CoarsestField(a)
  }

  /** On a normal span that is not empty, the unit chosen is the finest unit
      in use, unless largestAllowed is finer still. */
  lemma LargestUnitOfNormal(t: Span, largestAllowed: TimeUnit)
    requires IsNormal(t) && TotalSeconds(t) > 0
    ensures LargestUnitOf(t, largestAllowed).unit == Min(largestAllowed, FinestInUse(t))
  {
  }

  /** A span whose only positive field is u's: u is its finest unit in use,
      and folding into u leaves it as it is. */
  lemma SingleFieldFixed(a: Span, u: TimeUnit)
    requires forall v :: v != u ==> Component(a, v) == 0
    requires Component(a, u) > 0
    ensures FinestInUse(a) == u && DeNormalizeSpan(a, u) == a
  {
    assert Component(a, Weeks) == a.weeks && Component(a, Days) == a.days && Component(a, Hours) == a.hours;
    assert Component(a, Minutes) == a.minutes && Component(a, Seconds) == a.seconds;
  }

  /** A span with no field set is the empty span, which stays empty. */
  lemma NoFieldFixed(a: Span, u: TimeUnit, c: TimeUnit)
    requires forall v :: v != u ==> Component(a, v) == 0
    requires Component(a, u) == 0
    ensures LargestUnitState(a, c) == a
  {
    assert Component(a, Weeks) == a.weeks && Component(a, Days) == a.days && Component(a, Hours) == a.hours;
    assert Component(a, Minutes) == a.minutes && Component(a, Seconds) == a.seconds;
    var zero := Span(0, 0, 0, 0, 0);
    assert a == zero;
    assert FinestInUse(zero) == Weeks;
    assert TargetUnit(zero, c) == c;
  }

  /** Calling getLargestUnit a second time with the same cap changes
      nothing more and returns the same pair as the first call. */
  lemma LargestUnitRepeat(t: Span, largestAllowed: TimeUnit)
    requires NonNegative(t)
    ensures var a := LargestUnitState(t, largestAllowed);
      LargestUnitState(a, largestAllowed) == a
      && LargestUnitOf(a, largestAllowed) == LargestUnitOf(t, largestAllowed)
  {
    var u := TargetUnit(t, largestAllowed);
    var a := LargestUnitState(t, largestAllowed);
    FoldedIntoOneField(t, largestAllowed);
    if Component(a, u) == 0 {
      NoFieldFixed(a, u, largestAllowed);
    } else {
      SingleFieldFixed(a, u);
      assert TargetUnit(a, largestAllowed) == u;
    }
  }

  /** A worked example of getLargestUnit, each call on the state the one
      before it left behind: 2 weeks reads as 2 weeks, then 14 days, then
      336 hours. */
  lemma LargestUnitWeeksExample()
    ensures var t0 := NormalizeSpan(SpanOf(2, Some(Weeks)));
            var t1 := LargestUnitState(t0, Weeks);
            var t2 := LargestUnitState(t1, Days);
            LargestUnitOf(t0, Weeks) == Amount(2, Weeks)
            && LargestUnitOf(t1, Days) == Amount(14, Days)
            && LargestUnitOf(t2, Hours) == Amount(336, Hours)
  {
    var t0 := NormalizeSpan(SpanOf(2, Some(Weeks)));
    assert t0 == Span(2, 0, 0, 0, 0);
    assert LargestUnitState(t0, Weeks) == t0;
    assert LargestUnitState(t0, Days) == Span(0, 14, 0, 0, 0);
  }

  /** Another: 3 days 5 hours reads as 77 hours whatever the cap. */
  lemma LargestUnitHoursExample()
    ensures var s0 := Span(0, 3, 5, 0, 0);
            var s1 := LargestUnitState(s0, Weeks);
            var s2 := LargestUnitState(s1, Days);
            LargestUnitOf(s0, Weeks) == Amount(77, Hours)
            && LargestUnitOf(s1, Days) == Amount(77, Hours)
            && LargestUnitOf(s2, Hours) == Amount(77, Hours)
  {
  }

  /** A number printed with at least two digits, as toString pads each field. */
  function Pad2(n: int): (s: string)
    ensures 0 <= n < 100 ==> |s| == 2 && Text.AllDigits(s) && Text.DigitsValue(s) == n
  {
    if n < 10 then
      var d := Text.IntToDecimal(n);
      if 0 <= n then Text.DigitsValueLeadingZero(d); "0" + d else "0" + d
    else Text.IntToDecimal(n)
  }

  /** What Time.toString prints for a span it has already normalized:
      [hh:]mm:ss, the hours only when there are some; days and weeks are
      not printed. */
  function ClockText(t: Span): string
  {
    (if t.hours == 0 then "" else Pad2(t.hours) + ":") + Pad2(t.minutes) + ":" + Pad2(t.seconds)
  }

  class Time {
    var weeks: int
    var days: int
    var hours: int
    var minutes: int
    var seconds: int

    function Value(): Span
      reads this
    {
      Span(weeks, days, hours, minutes, seconds)
    }

    /** Time(): no time at all. */
    constructor ()
      ensures Value() == Span(0, 0, 0, 0, 0)
    {
      weeks, days, hours, minutes, seconds := 0, 0, 0, 0, 0;
    }

    /** Time(hours, minutes, seconds), normalized. */
    constructor FromClock(hours: int, minutes: int, seconds: int)
      ensures Value() == NormalizeSpan(Span(0, 0, hours, minutes, seconds))
    {
      this.weeks, this.days := 0, 0;
      this.hours, this.minutes, this.seconds := hours, minutes, seconds;
      new;
      Normalize();
    }

    /** Time(number, unit), normalized; without a unit it is no time at all. */
    constructor FromAmount(number: int, unit: Option<TimeUnit>)
      ensures Value() == NormalizeSpan(SpanOf(number, unit))
    {
      weeks, days, hours, minutes, seconds := 0, 0, 0, 0, 0;
      new;
      match unit {
        case None =>
        case Some(Seconds) => seconds := number;
        case Some(Minutes) => minutes := number;
        case Some(Hours) => hours := number;
        case Some(Days) => days := number;
        case Some(Weeks) => weeks := number;
      }
      assert Value() == SpanOf(number, unit);
      Normalize();
    }

    /** setWeeks: a negative argument is ignored; the weeks are not normalized. */
    method SetWeeks(weeks: int) returns (self: Time)
      modifies this
      ensures self == this
      ensures Value() == if weeks >= 0 then old(Value()).(weeks := weeks) else old(Value())
    {
      if weeks >= 0 {
        this.weeks := weeks;
      }
      self := this;
    }

    /** setDays: a negative argument is ignored; otherwise set and normalize. */
    method SetDays(days: int) returns (self: Time)
      modifies this
      ensures self == this
      ensures Value() == if days >= 0 then NormalizeSpan(old(Value()).(days := days)) else old(Value())
    {
      if days >= 0 {
        this.days := days;
        assert Value() == old(Value()).(days := days);
        Normalize();
      }
      self := this;
    }

    /** setHours: a negative argument is ignored; otherwise set and normalize. */
    method SetHours(hours: int) returns (self: Time)
      modifies this
      ensures self == this
      ensures Value() == if hours >= 0 then NormalizeSpan(old(Value()).(hours := hours)) else old(Value())
    {
      if hours >= 0 {
        this.hours := hours;
        assert Value() == old(Value()).(hours := hours);
        Normalize();
      }
      self := this;
    }

    /** setMinutes: a negative argument is ignored; otherwise set and normalize. */
    method SetMinutes(minutes: int) returns (self: Time)
      modifies this
      ensures self == this
      ensures Value() == if minutes >= 0 then NormalizeSpan(old(Value()).(minutes := minutes)) else old(Value())
    {
      if minutes >= 0 {
        this.minutes := minutes;
        assert Value() == old(Value()).(minutes := minutes);
        Normalize();
      }
      self := this;
    }

    /** setSeconds: a negative argument is ignored; otherwise set and normalize. */
    method SetSeconds(seconds: int) returns (self: Time)
      modifies this
      ensures self == this
      ensures Value() == if seconds >= 0 then NormalizeSpan(old(Value()).(seconds := seconds)) else old(Value())
    {
      if seconds >= 0 {
        this.seconds := seconds;
        assert Value() == old(Value()).(seconds := seconds);
        Normalize();
      }
      self := this;
    }

    method Normalize()
      modifies this
      ensures Value() == NormalizeSpan(old(Value()))
    {
      if seconds >= 60 {
        minutes := minutes + seconds / 60;
        seconds := seconds % 60;
      }
      assert Value() == CarrySeconds(old(Value()));
      if minutes >= 60 {
        hours := hours + minutes / 60;
        minutes := minutes % 60;
      }
      assert Value() == CarryMinutes(CarrySeconds(old(Value())));
      if hours >= 24 {
        days := days + hours / 24;
        hours := hours % 24;
      }
      assert Value() == CarryHours(CarryMinutes(CarrySeconds(old(Value()))));
      if days >= 7 {
        weeks := weeks + days / 7;
        days := days % 7;
      }
    }

    method DeNormalize(largestAllowed: TimeUnit)
      modifies this
      ensures Value() == DeNormalizeSpan(old(Value()), largestAllowed)
    {
      match largestAllowed {
        case Weeks =>
        case Days =>
          days := days + weeks * 7;
          weeks := 0;
        case Hours =>
          days := days + weeks * 7;
          hours := hours + days * 24;
          weeks, days := 0, 0;
        case Minutes =>
          days := days + weeks * 7;
          hours := hours + days * 24;
          minutes := minutes + hours * 60;
          weeks, days, hours := 0, 0, 0;
        case Seconds =>
          days := days + weeks * 7;
          hours := hours + days * 24;
          minutes := minutes + hours * 60;
          seconds := seconds + minutes * 60;
          weeks, days, hours, minutes := 0, 0, 0, 0;
      }
    }

    /** getLargestUnit: folds the time into one unit no coarser than
        largestAllowed (changing this Time) and reports that unit's amount. */
    method GetLargestUnit(largestAllowed: TimeUnit) returns (p: Amount)
      modifies this
      ensures Value() == LargestUnitState(old(Value()), largestAllowed)
      ensures p == LargestUnitOf(old(Value()), largestAllowed)
    {
      var finest: TimeUnit;
      if seconds > 0 {
        finest := Seconds;
      } else if minutes > 0 {
        finest := Minutes;
      } else if hours > 0 {
        finest := Hours;
      } else if days > 0 {
        finest := Days;
      } else {
        finest := Weeks;
      }
      assert finest == FinestInUse(old(Value()));
      DeNormalize(Min(largestAllowed, finest));
      assert Value() == LargestUnitState(old(Value()), largestAllowed);
      assert LargestUnitOf(old(Value()), largestAllowed) == CoarsestField(Value());
      if weeks != 0 {
        p := Amount(weeks, Weeks);
      } else if days != 0 {
        p := Amount(days, Days);
      } else if hours != 0 {
        p := Amount(hours, Hours);
      } else if minutes != 0 {
        p := Amount(minutes, Minutes);
      } else {
        p := Amount(seconds, Seconds);
      }
    }

    /** toString: normalizes this Time, then prints it as [hh:]mm:ss. */
    method ToString() returns (text: string)
      modifies this
      ensures Value() == NormalizeSpan(old(Value()))
      ensures text == ClockText(Value())
    {
      Normalize();
      text := (if hours == 0 then "" else Pad2(hours) + ":") + Pad2(minutes) + ":" + Pad2(seconds);
    }
  }
}
