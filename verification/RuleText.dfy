/**
 Reading a recurrence rule back from its text: FREQ, INTERVAL, COUNT, UNTIL and BYDAY, in whatever order they come and
 whichever of them are there, section 3.3.10 of RFC 5545.
 */
module RuleText {
  import opened Prelude
  import opened Text
  import opened CivilTime
  import opened TimeFormat
  import opened Recurrence

  // ----- splitting what was joined -----

  lemma {:induction false} SplitJoin(parts: seq<string>, sep: char)
    requires parts != [] && forall i :: 0 <= i < |parts| ==> sep !in parts[i]
    ensures SplitOn(Join(parts, sep), sep) == parts
    decreases |parts|
  {
    hide IndexFrom;
    var s, k := Join(parts, sep), |parts[0]|;
    assert sep !in parts[0];
    if |parts| == 1 {
      FirstIndex(s, sep, 0, |s|);
    } else {
      var rest := Join(parts[1..], sep);
      assert s == parts[0] + [sep] + rest;
      FirstIndex(s, sep, 0, k);
      assert s[..k] == parts[0] && s[k + 1..] == rest;
      SplitJoin(parts[1..], sep);
    }
  }

  lemma NoneJoined(sep: char)
    ensures SplitOn(Join([], sep), sep) == [""]
  {
  }

  // ----- a rule as text -----

  datatype Part = FreqPart | IntervalPart | CountPart | UntilPart | ByDayPart

  function FrequencyName(f: Frequency): string {
    match f
    case Daily => "DAILY"
    case Weekly => "WEEKLY"
    case Monthly => "MONTHLY"
    case Yearly => "YEARLY"
    case Unknown => ""
  }

  function DayName(day: int): string
    requires 0 <= day < 7
  {
    match day
    case 0 => "SU"
    case 1 => "MO"
    case 2 => "TU"
    case 3 => "WE"
    case 4 => "TH"
    case 5 => "FR"
    case _ => "SA"
  }

  function DayNames(days: seq<int>): (names: seq<string>)
    requires forall i :: 0 <= i < |days| ==> 0 <= days[i] < 7
    ensures |names| == |days|
  {
    seq(|days|, i requires 0 <= i < |days| => DayName(days[i]))
  }

  function PartName(p: Part): string {
    match p
    case FreqPart => "FREQ"
    case IntervalPart => "INTERVAL"
    case CountPart => "COUNT"
    case UntilPart => "UNTIL"
    case ByDayPart => "BYDAY"
  }

  function PartValue(r: Rule, p: Part): string
    requires ValidRule(r)
  {
    match p
    case FreqPart => FrequencyName(r.freq)
    case IntervalPart => Decimal(r.interval)
    case CountPart => Decimal(r.count)
    case UntilPart => FormatUTC(r.until)
    case ByDayPart => Join(DayNames(r.byDay), ',')
  }

  function PartText(r: Rule, p: Part): string
    requires ValidRule(r)
  {
    PartName(p) + "=" + PartValue(r, p)
  }

  function PartTexts(r: Rule, parts: seq<Part>): (texts: seq<string>)
    requires ValidRule(r)
    ensures |texts| == |parts|
  {
    seq(|parts|, i requires 0 <= i < |parts| => PartText(r, parts[i]))
  }

  function RuleTextOf(r: Rule, parts: seq<Part>): string
    requires ValidRule(r)
  {
    Join(PartTexts(r, parts), ';')
  }

  /** A rule whose numbers fit 64 bits and whose end prints with a four-digit year. */
  predicate Writable(r: Rule) {
    ValidRule(r) && r.freq != Unknown && r.interval <= MAX_INT64 && r.count <= MAX_INT64 && FourDigitYear(DayOf(r.until))
  }

  /** What the given parts of a rule say; for the others, that there is none, and an interval of 1. */
  function Chosen(r: Rule, parts: seq<Part>): Rule {
    Rule(if FreqPart in parts then r.freq else Unknown, if IntervalPart in parts then r.interval else 1,
         if CountPart in parts then r.count else 0, if UntilPart in parts then r.until else 0,
         if ByDayPart in parts then r.byDay else [])
  }

  ghost predicate Distinct(parts: seq<Part>) {
    forall i, j :: 0 <= i < j < |parts| ==> parts[i] != parts[j]
  }

  // ----- values -----

  lemma ParseDecimal(n: nat)
    requires n <= MAX_INT64
    ensures ParseInt(Decimal(n)) == Some(n)
  {
    hide Decimal, NumberOf;
    assert IsDigit(Decimal(n)[0]);
  }

  lemma ParseFrequencyName(f: Frequency)
    requires f != Unknown
    ensures ParseFrequency(FrequencyName(f)) == Some(f)
  {
    UpperIsFixed(FrequencyName(f));
  }

  const ORDINAL_CHARS: string := "+-0123456789"

  lemma {:induction false} OrdinalDropped(ordinal: string, name: string)
    requires forall i :: 0 <= i < |ordinal| ==> ordinal[i] in ORDINAL_CHARS
    requires name != "" && name[0] !in ORDINAL_CHARS
    ensures TrimLeftOf(ordinal + name, ORDINAL_CHARS) == name
  {
    if ordinal == "" {
      assert ordinal + name == name;
    } else {
      assert (ordinal + name)[1..] == ordinal[1..] + name;
      OrdinalDropped(ordinal[1..], name);
    }
  }

  lemma OrdinalCharacters(c: char)
    requires c in ORDINAL_CHARS
    ensures !IsSpace(c) && UpperChar(c) == c
  {
  }

  /** A two-letter day, with or without an ordinal before it, reads as that day of the week. */
  lemma ParseDayName(ordinal: string, day: int)
    requires 0 <= day < 7 && forall i :: 0 <= i < |ordinal| ==> ordinal[i] in ORDINAL_CHARS
    ensures ParseWeekday(ordinal + DayName(day)) == Some(day)
  {
    hide TrimSpace, TrimLeftOf;
    var name := DayName(day);
    var v := ordinal + name;
    forall i | 0 <= i < |ordinal|
      ensures !IsSpace(ordinal[i]) && UpperChar(ordinal[i]) == ordinal[i]
    {
      OrdinalCharacters(ordinal[i]);
    }
    assert v[|v| - 1] == name[1] && v[0] == if ordinal == "" then name[0] else ordinal[0];
    TrimSpaceOfTight(v);
    UpperIsFixed(v);
    OrdinalDropped(ordinal, name);
  }

  lemma {:induction false} DaysAreRead(days: seq<int>)
    requires forall i :: 0 <= i < |days| ==> 0 <= days[i] < 7
    ensures WeekdaysOf(DayNames(days)) == days
    decreases |days|
  {
    hide ParseWeekday, DayName;
    if days != [] {
      var n := |days| - 1;
      DaysAreRead(days[..n]);
      assert DayNames(days)[..n] == DayNames(days[..n]);
      ParseDayName("", days[n]);
      assert "" + DayName(days[n]) == DayName(days[n]);
    }
  }

  lemma DayNameIsPlain(day: int)
    requires 0 <= day < 7
    ensures ',' !in DayName(day) && ';' !in DayName(day)
  {
  }

  lemma ParseDayNames(days: seq<int>)
    requires forall i :: 0 <= i < |days| ==> 0 <= days[i] < 7
    ensures WeekdaysOf(SplitOn(Join(DayNames(days), ','), ',')) == days
  {
    hide DayName, SplitOn, Join;
    if days == [] {
      NoneJoined(',');
      assert DayNames(days) == [];
      NoDay();
    } else {
      forall i | 0 <= i < |days|
        ensures ',' !in DayNames(days)[i]
      {
        DayNameIsPlain(days[i]);
      }
      SplitJoin(DayNames(days), ',');
      DaysAreRead(days);
    }
  }

  lemma NoDay()
    ensures WeekdaysOf([""]) == []
  {
  }

  // ----- one part -----

  /** A rule with what one more part says. */
  function Added(acc: Rule, r: Rule, p: Part): Rule {
    match p
    case FreqPart => acc.(freq := r.freq)
    case IntervalPart => acc.(interval := r.interval)
    case CountPart => if r.count > 0 then acc.(count := r.count) else acc
    case UntilPart => acc.(until := r.until)
    case ByDayPart => acc.(byDay := acc.byDay + r.byDay)
  }

  lemma KeyAndValue(key: string, value: string)
    requires '=' !in key
    ensures var part := key + "=" + value;
            var eq := IndexFrom(part, '=', 0);
            eq < |part| && part[..eq] == key && part[eq + 1..] == value
  {
    hide IndexFrom;
    var part := key + "=" + value;
    FirstIndex(part, '=', 0, |key|);
  }

  lemma PartNameIsPlain(p: Part)
    ensures '=' !in PartName(p) && ';' !in PartName(p) && ToUpper(PartName(p)) == PartName(p)
  {
    UpperIsFixed(PartName(p));
  }

  lemma PartIsRead(acc: Rule, r: Rule, p: Part)
    requires Writable(r)
    ensures ApplyPart(acc, PartText(r, p)) == Added(acc, r, p)
  {
    hide ToUpper, IndexFrom, ParseInt, ParseFrequency, ParseTime, FormatUTC, Decimal, WeekdaysOf, SplitOn, Join, DayNames,
      FourDigitYear, FrequencyName;
    PartNameIsPlain(p);
    KeyAndValue(PartName(p), PartValue(r, p));
    match p
    case FreqPart => ParseFrequencyName(r.freq);
    case IntervalPart => ParseDecimal(r.interval);
    case CountPart => ParseDecimal(r.count);
    case UntilPart => ParseFormatUTC(r.until);
    case ByDayPart => ParseDayNames(r.byDay);
  }

  /** Names of parts may be written in either case. */
  lemma PartNamesFold(acc: Rule, key: string, value: string)
    requires '=' !in key
    ensures ApplyPart(acc, key + "=" + value) == ApplyPart(acc, ToUpper(key) + "=" + value)
  {
    hide IndexFrom, ParseInt, ParseFrequency, ParseTime, WeekdaysOf, SplitOn;
    forall i | 0 <= i < |key|
      ensures ToUpper(key)[i] != '='
    {
      assert key[i] in key;
    }
    KeyAndValue(key, value);
    KeyAndValue(ToUpper(key), value);
    UpperIsFixed(ToUpper(key));
  }

  // ----- all parts -----

  lemma {:induction false} PartsAreRead(r: Rule, parts: seq<Part>)
    requires Writable(r) && Distinct(parts)
    ensures ApplyParts(PartTexts(r, parts)) == Chosen(r, parts)
    decreases |parts|
  {
    hide ApplyPart, PartText, FourDigitYear, Chosen, Added;
    if parts == [] {
      NothingChosen(r);
    } else {
      var n := |parts| - 1;
      var front, last := parts[..n], parts[n];
      PartsAreRead(r, front);
      assert PartTexts(r, parts)[..n] == PartTexts(r, front);
      PartIsRead(Chosen(r, front), r, last);
      assert last !in front;
      assert parts == front + [last];
      ChosenSnoc(r, front, last);
    }
  }

  lemma NothingChosen(r: Rule)
    ensures Chosen(r, []) == NO_RULE
  {
  }

  lemma ChosenSnoc(r: Rule, front: seq<Part>, last: Part)
    requires last !in front && r.count >= 0
    ensures Added(Chosen(r, front), r, last) == Chosen(r, front + [last])
  {
    assert forall p :: p in front + [last] <==> p in front || p == last;
  }

  lemma {:induction false} JoinIsPlain(parts: seq<string>, sep: char, c: char)
    requires c != sep && forall i :: 0 <= i < |parts| ==> c !in parts[i]
    ensures c !in Join(parts, sep)
    decreases |parts|
  {
    if |parts| > 1 {
      JoinIsPlain(parts[1..], sep, c);
      assert c !in parts[0];
    }
  }

  lemma DigitsArePlain(s: string, c: char)
    requires AllDigits(s) && !IsDigit(c)
    ensures c !in s
  {
  }

  /** A printed instant with a four-digit year is digits, a T and a Z. */
  lemma StampIsPlain(t: Instant, c: char)
    requires FourDigitYear(DayOf(t)) && !IsDigit(c) && c != 'T' && c != 'Z'
    ensures c !in FormatUTC(t)
  {
    hide FormatDate, FormatClock, FourDigitYear;
    DatePieces(DayOf(t));
    ClockPieces(SecondOfDay(t));
    DigitsArePlain(FormatDate(DayOf(t)), c);
    DigitsArePlain(FormatClock(SecondOfDay(t)), c);
  }

  lemma PartIsPlain(r: Rule, p: Part)
    requires Writable(r)
    ensures ';' !in PartText(r, p)
  {
    hide FormatUTC, Decimal, Join, DayName, FourDigitYear, FrequencyName, PartName;
    PartNameIsPlain(p);
    match p
    case FreqPart => FrequencyIsPlain(r.freq);
    case IntervalPart => DigitsArePlain(Decimal(r.interval), ';');
    case CountPart => DigitsArePlain(Decimal(r.count), ';');
    case UntilPart => StampIsPlain(r.until, ';');
    case ByDayPart =>
      forall i | 0 <= i < |r.byDay|
        ensures ';' !in DayNames(r.byDay)[i]
      {
        DayNameIsPlain(r.byDay[i]);
      }
      JoinIsPlain(DayNames(r.byDay), ',', ';');
  }

  lemma FrequencyIsPlain(f: Frequency)
    ensures ';' !in FrequencyName(f)
  {
  }

  /**
   Any of the five parts of a rule, in any order, read back as what they say, and what is left out as its default; so
   all five, in any order, read back as the rule.
   */
  lemma RuleIsRead(r: Rule, parts: seq<Part>)
    requires Writable(r) && Distinct(parts)
    ensures RuleOf(RuleTextOf(r, parts)) == Chosen(r, parts)
    ensures (forall p: Part :: p in parts) ==> RuleOf(RuleTextOf(r, parts)) == r
  {
    hide ApplyPart, PartText, SplitOn, Join, FourDigitYear;
    PartsAreRead(r, parts);
    if parts == [] {
      NoneJoined(';');
      assert PartTexts(r, parts) == [];
      NoPart();
    } else {
      forall i | 0 <= i < |parts|
        ensures ';' !in PartTexts(r, parts)[i]
      {
        PartIsPlain(r, parts[i]);
      }
      SplitJoin(PartTexts(r, parts), ';');
    }
  }

  lemma NoPart()
    ensures ApplyParts([""]) == NO_RULE
  {
  }
}
