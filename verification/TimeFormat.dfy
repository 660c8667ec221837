/**
 DATE and DATE-TIME values, sections 3.3.4 and 3.3.5 of RFC 5545, as the feed writer prints them and the
 feed reader takes them apart.
 */
module TimeFormat {
  import opened Prelude
  import opened Text
  import opened CivilTime

  // ----- printing -----

  function FormatYear(y: int): string {
    if y < 0 then "-" + Pad(-y, 4) else Pad(y, 4)
  }

  function FormatDate(day: int): string {
    var d := CivilOf(day);
    FormatYear(d.year) + (Pad(d.month, 2) + Pad(d.day, 2))
  }

  function FormatClock(second: int): string
    requires 0 <= second < SECONDS_PER_DAY
  {
    Pad(second / 3600, 2) + (Pad(second / 60 % 60, 2) + Pad(second % 60, 2))
  }

  function FormatUTC(t: Instant): string {
    FormatDate(DayOf(t)) + ("T" + (FormatClock(SecondOfDay(t)) + "Z"))
  }

  /** The day prints with a four-digit year. */
  predicate FourDigitYear(day: int) {
    0 <= CivilOf(day).year <= 9999
  }

  // ----- parsing -----

  /** What a time value says, and whether it is a date rather than an instant. */
  datatype ParsedTime = ParsedTime(at: Instant, allDay: bool)

  function ParseDate(v: string): Option<int>
    requires |v| == 8
  {
    if !AllDigits(v) then None
    else
      var d := Date(NumberOf(v[..4]), NumberOf(v[4..6]), NumberOf(v[6..]));
      if ValidDate(d) then Some(DayNumber(d)) else None
  }

  function ParseClock(v: string): (r: Option<int>)
    requires |v| == 6
    ensures r.Some? ==> 0 <= r.value < SECONDS_PER_DAY
  {
    if !AllDigits(v) then None
    else
      var h, m, s := NumberOf(v[..2]), NumberOf(v[2..4]), NumberOf(v[4..]);
      if h < 24 && m < 60 && s < 60 then Some(3600 * h + 60 * m + s) else None
  }

  function ParseStamp(v: string): Option<Instant> {
    if |v| != 15 || v[8] != 'T' then None
    else
      match (ParseDate(v[..8]), ParseClock(v[9..]))
      case (Some(day), Some(second)) => Some(Midnight(day) + second)
      case _ => None
  }

  /** The three forms a feed carries: a date, an instant in UTC, and a local or floating time. */
  function ParseTime(value: string): Option<ParsedTime> {
    var v := TrimSpace(value);
    if |v| == 8 then
      match ParseDate(v)
      case Some(day) => Some(ParsedTime(Midnight(day), true))
      case None => None
    else
      var stamp := if v != "" && v[|v| - 1] == 'Z' then v[..|v| - 1] else v;
      match ParseStamp(stamp)
      case Some(t) => Some(ParsedTime(t, false))
      case None => None
  }

  // ----- parsing undoes printing -----

  lemma TwoDigits(n: int)
    requires 0 <= n < 100
    ensures |Pad(n, 2)| == 2
  {
    assert Pow10(2) == 100 by { assert Pow10(1) == 10; }
    PadExact(n, 2);
  }

  lemma FourDigits(n: int)
    requires 0 <= n <= 9999
    ensures |Pad(n, 4)| == 4
  {
    assert Pow10(4) == 10000 by { assert Pow10(2) == 100; }
    PadExact(n, 4);
  }

  lemma DatePieces(day: int)
    requires FourDigitYear(day)
    ensures var d := CivilOf(day);
            var v := FormatDate(day);
            |v| == 8 && AllDigits(v) && v[..4] == Pad(d.year, 4) && v[4..6] == Pad(d.month, 2) && v[6..] == Pad(d.day, 2)
  {
    var d := CivilOf(day);
    FourDigits(d.year);
    TwoDigits(d.month);
    TwoDigits(d.day);
    ThreePieces(Pad(d.year, 4), Pad(d.month, 2), Pad(d.day, 2));
  }

  lemma ThreePieces(a: string, b: string, c: string)
    requires AllDigits(a) && AllDigits(b) && AllDigits(c)
    ensures var v := a + (b + c);
            && AllDigits(v) && |v| == |a| + |b| + |c|
            && v[..|a|] == a && v[|a|..|a| + |b|] == b && v[|a| + |b|..] == c
  {
  }

  lemma ParseFormattedDate(day: int)
    requires FourDigitYear(day)
    ensures |FormatDate(day)| == 8
    ensures ParseDate(FormatDate(day)) == Some(day)
  {
    DatePieces(day);
  }

  lemma ClockPieces(second: int)
    requires 0 <= second < SECONDS_PER_DAY
    ensures var v := FormatClock(second);
            && |v| == 6 && AllDigits(v)
            && v[..2] == Pad(second / 3600, 2) && v[2..4] == Pad(second / 60 % 60, 2) && v[4..] == Pad(second % 60, 2)
  {
    var h, m, s := second / 3600, second / 60 % 60, second % 60;
    TwoDigits(h);
    TwoDigits(m);
    TwoDigits(s);
    ThreePieces(Pad(h, 2), Pad(m, 2), Pad(s, 2));
  }

  lemma SplitClock(second: int)
    requires 0 <= second < SECONDS_PER_DAY
    ensures 3600 * (second / 3600) + 60 * (second / 60 % 60) + second % 60 == second
  {
    var k := second / 60;
    assert second == 60 * k + second % 60;
    assert k == 60 * (k / 60) + k % 60;
    assert k / 60 == second / 3600;
  }

  lemma ParseFormattedClock(second: int)
    requires 0 <= second < SECONDS_PER_DAY
    ensures |FormatClock(second)| == 6
    ensures ParseClock(FormatClock(second)) == Some(second)
  {
    ClockPieces(second);
    SplitClock(second);
  }

  lemma DigitsAreTight(v: string, tail: string)
    requires v != "" && IsDigit(v[0])
    requires tail != "" && (IsDigit(tail[|tail| - 1]) || tail[|tail| - 1] == 'Z')
    ensures TrimSpace(v + tail) == v + tail
  {
    TrimSpaceOfTight(v + tail);
  }

  /** An all-day value reads back as midnight of the same day. */
  lemma ParseFormatDate(day: int)
    requires FourDigitYear(day)
    ensures ParseTime(FormatDate(day)) == Some(ParsedTime(Midnight(day), true))
  {
    DatePieces(day);
    var v := FormatDate(day);
    assert IsDigit(v[0]) && IsDigit(v[7]);
    TrimSpaceOfTight(v);
    ParseFormattedDate(day);
  }

  lemma ParseFormattedStamp(date: string, clock: string, day: int, second: int)
    requires |date| == 8 && |clock| == 6
    requires ParseDate(date) == Some(day) && ParseClock(clock) == Some(second)
    ensures ParseStamp(date + ("T" + clock)) == Some(Midnight(day) + second)
  {
    var v := date + ("T" + clock);
    assert v[..8] == date && v[9..] == clock && v[8] == 'T';
  }

  lemma StampText(date: string, clock: string)
    requires |date| == 8 && IsDigit(date[0]) && |clock| == 6
    ensures var v := date + ("T" + (clock + "Z"));
            && TrimSpace(v) == v && |v| == 16 && v[15] == 'Z' && v[..15] == date + ("T" + clock)
  {
    DigitsAreTight(date, "T" + (clock + "Z"));
  }

  /** An instant reads back as itself. */
  lemma ParseFormatUTC(t: Instant)
    requires FourDigitYear(DayOf(t))
    ensures ParseTime(FormatUTC(t)) == Some(ParsedTime(t, false))
  {
    hide FormatDate, FormatClock, ParseStamp, TrimSpace, ParseDate, ParseClock;
    var date, clock := FormatDate(DayOf(t)), FormatClock(SecondOfDay(t));
    DatePieces(DayOf(t));
    ParseFormattedDate(DayOf(t));
    ParseFormattedClock(SecondOfDay(t));
    ParseFormattedStamp(date, clock, DayOf(t), SecondOfDay(t));
    StampText(date, clock);
    SplitInstant(t);
  }

  lemma FloatingText(date: string, clock: string)
    requires |date| == 8 && IsDigit(date[0]) && |clock| == 6 && IsDigit(clock[5])
    ensures var v := date + ("T" + clock); TrimSpace(v) == v && |v| == 15 && v[14] != 'Z'
  {
    hide TrimSpace;
    var v := date + ("T" + clock);
    assert v[14] == clock[5];
    TrimSpaceOfTight(v);
  }

  /** A time without the Z, a local or floating one, reads as if it were in UTC. */
  lemma ParseFloating(t: Instant)
    requires FourDigitYear(DayOf(t))
    ensures ParseTime(FormatDate(DayOf(t)) + ("T" + FormatClock(SecondOfDay(t)))) == Some(ParsedTime(t, false))
  {
    hide FormatDate, FormatClock, ParseStamp, TrimSpace, ParseDate, ParseClock;
    var date, clock := FormatDate(DayOf(t)), FormatClock(SecondOfDay(t));
    DatePieces(DayOf(t));
    ClockPieces(SecondOfDay(t));
    ParseFormattedDate(DayOf(t));
    ParseFormattedClock(SecondOfDay(t));
    ParseFormattedStamp(date, clock, DayOf(t), SecondOfDay(t));
    FloatingText(date, clock);
    SplitInstant(t);
  }

  // ----- printing never merges two instants -----

  lemma FormatYearIsInjective(y: int, z: int)
    requires FormatYear(y) == FormatYear(z)
    ensures y == z
  {
    var a, b := Pad(if y < 0 then -y else y, 4), Pad(if z < 0 then -z else z, 4);
    assert IsDigit(a[0]) && IsDigit(b[0]);
    if y < 0 && z < 0 {
      assert ("-" + a)[1..] == a && ("-" + b)[1..] == b;
    }
  }

  lemma FormatDateIsInjective(x: int, y: int)
    requires FormatDate(x) == FormatDate(y)
    ensures x == y
  {
    hide FormatYear, CivilTime.CivilOf, Text.Pad, Text.NumberOf;
    var d, e := CivilOf(x), CivilOf(y);
    TwoDigits(d.month);
    TwoDigits(d.day);
    TwoDigits(e.month);
    TwoDigits(e.day);
    SameSplit(FormatYear(d.year), Pad(d.month, 2) + Pad(d.day, 2), FormatYear(e.year), Pad(e.month, 2) + Pad(e.day, 2));
    SameSplit(Pad(d.month, 2), Pad(d.day, 2), Pad(e.month, 2), Pad(e.day, 2));
    FormatYearIsInjective(d.year, e.year);
    assert d == e;
  }

  lemma SameSplit(a: string, b: string, c: string, d: string)
    requires a + b == c + d && |b| == |d|
    ensures a == c && b == d
  {
    assert (a + b)[..|a|] == a && (c + d)[..|a|] == c;
    assert (a + b)[|a|..] == b && (c + d)[|a|..] == d;
  }

  /** Two instants that print alike are the same instant, whatever their year. */
  lemma FormatUTCIsInjective(t: Instant, u: Instant)
    requires FormatUTC(t) == FormatUTC(u)
    ensures t == u
  {
    hide FormatDate, FormatClock;
    var ct, cu := FormatClock(SecondOfDay(t)), FormatClock(SecondOfDay(u));
    ParseFormattedClock(SecondOfDay(t));
    ParseFormattedClock(SecondOfDay(u));
    SameSplit(FormatDate(DayOf(t)), "T" + (ct + "Z"), FormatDate(DayOf(u)), "T" + (cu + "Z"));
    SameSplit("T", ct + "Z", "T", cu + "Z");
    SameSplit(ct, "Z", cu, "Z");
    FormatDateIsInjective(DayOf(t), DayOf(u));
    SplitInstant(t);
    SplitInstant(u);
  }

  lemma FormatIsSingleLine(t: Instant)
    ensures SingleLine(FormatUTC(t)) && SingleLine(FormatDate(DayOf(t)))
  {
    var d := CivilOf(DayOf(t));
    YearIsSingleLine(d.year);
    DigitsAreSingleLine(Pad(d.month, 2));
    DigitsAreSingleLine(Pad(d.day, 2));
    ClockPieces(SecondOfDay(t));
    DigitsAreSingleLine(FormatClock(SecondOfDay(t)));
  }

  lemma YearIsSingleLine(y: int)
    ensures SingleLine(FormatYear(y))
  {
    DigitsAreSingleLine(Pad(if y < 0 then -y else y, 4));
  }

  lemma DigitsAreSingleLine(s: string)
    requires AllDigits(s)
    ensures SingleLine(s)
  {
  }
}
