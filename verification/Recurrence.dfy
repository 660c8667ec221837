/**
 Recurrence rules, the subset of section 3.3.10 of RFC 5545 the feed reader understands: reading a rule
 and walking it forward from the start of the series.
 */
module Recurrence {
  import opened Prelude
  import opened Text
  import opened CivilTime
  import opened TimeFormat

  /** How many steps of one series are walked, and about how many occurrences it may produce. */
  const MAX_EXPANSION: nat := 500

  datatype Frequency = Unknown | Daily | Weekly | Monthly | Yearly

  /** A count of 0 and an until of 0 mean that the rule gives none. Days are 0 for Sunday to 6. */
  datatype Rule = Rule(freq: Frequency, interval: int, count: int, until: Instant, byDay: seq<int>)

  predicate ValidRule(r: Rule) {
    r.interval >= 1 && r.count >= 0 && forall i :: 0 <= i < |r.byDay| ==> 0 <= r.byDay[i] < 7
  }

  // ----- reading a rule -----

  const MAX_INT64: int := 0x7FFF_FFFF_FFFF_FFFF

  /** A decimal number with an optional sign that fits 64 bits. */
  function ParseInt(v: string): Option<int> {
    var digits := if v != "" && (v[0] == '+' || v[0] == '-') then v[1..] else v;
    if digits == "" || !AllDigits(digits) then None
    else
      var magnitude: int := NumberOf(digits);
      var n := if v[0] == '-' then -magnitude else magnitude;
      if -MAX_INT64 - 1 <= n <= MAX_INT64 then Some(n) else None
  }

  function ParseFrequency(v: string): Option<Frequency> {
    var u := ToUpper(v);
    if u == "DAILY" then Some(Daily)
    else if u == "WEEKLY" then Some(Weekly)
    else if u == "MONTHLY" then Some(Monthly)
    else if u == "YEARLY" then Some(Yearly)
    else None
  }

  /** A weekday, after dropping the ordinal it may carry. */
  function ParseWeekday(v: string): (r: Option<int>)
    ensures r.Some? ==> 0 <= r.value < 7
  {
    var d := TrimLeftOf(ToUpper(TrimSpace(v)), "+-0123456789");
    if d == "SU" then Some(0) else if d == "MO" then Some(1) else if d == "TU" then Some(2)
    else if d == "WE" then Some(3) else if d == "TH" then Some(4) else if d == "FR" then Some(5)
    else if d == "SA" then Some(6) else None
  }

  function WeekdaysOf(parts: seq<string>): (days: seq<int>)
    ensures forall i :: 0 <= i < |days| ==> 0 <= days[i] < 7
  {
    if parts == [] then []
    else
      var front := WeekdaysOf(parts[..|parts| - 1]);
      match ParseWeekday(parts[|parts| - 1])
      case Some(d) => front + [d]
      case None => front
  }

  function ApplyPart(r: Rule, part: string): Rule {
    var eq := IndexFrom(part, '=', 0);
    if eq == |part| then r
    else
      var k, v := ToUpper(part[..eq]), part[eq + 1..];
      if k == "FREQ" then
        match ParseFrequency(v) case Some(f) => r.(freq := f) case None => r
      else if k == "INTERVAL" then
        match ParseInt(v) case Some(n) => if n > 0 then r.(interval := n) else r case None => r
      else if k == "COUNT" then
        match ParseInt(v) case Some(n) => if n > 0 then r.(count := n) else r case None => r
      else if k == "UNTIL" then
        match ParseTime(v) case Some(t) => r.(until := t.at) case None => r
      else if k == "BYDAY" then r.(byDay := r.byDay + WeekdaysOf(SplitOn(v, ',')))
      else r
  }

  const NO_RULE: Rule := Rule(Unknown, 1, 0, 0, [])

  function ApplyParts(parts: seq<string>): (r: Rule)
    ensures ValidRule(r)
  {
    if parts == [] then NO_RULE else ApplyPart(ApplyParts(parts[..|parts| - 1]), parts[|parts| - 1])
  }

  function RuleOf(s: string): (r: Rule)
    ensures ValidRule(r)
  {
    ApplyParts(SplitOn(s, ';'))
  }

  method ParseRRule(s: string) returns (r: Rule)
    ensures r == RuleOf(s) && ValidRule(r)
  {
    var parts := SplitOn(s, ';');
    r := NO_RULE;
    for i := 0 to |parts|
      invariant r == ApplyParts(parts[..i])
    {
      assert parts[..i + 1][..i] == parts[..i];
      r := ApplyPart(r, parts[i]);
    }
    assert parts[..|parts|] == parts;
  }

  // ----- walking a rule -----

  function Step(r: Rule, t: Instant): Instant {
    match r.freq
    case Daily => AddDate(t, 0, 0, r.interval)
    case Weekly => AddDate(t, 0, 0, 7 * r.interval)
    case Monthly => AddDate(t, 0, r.interval, 0)
    case Yearly => AddDate(t, r.interval, 0, 0)
    case Unknown => AddDate(t, 0, 0, 1)
  }

  predicate NamesDays(r: Rule) {
    r.freq == Weekly && r.byDay != []
  }

  /** The given weekday of the week t sits in, at t's time of day. */
  function OnWeekday(t: Instant, wd: int): Instant {
    var weekStart := AddDate(t, 0, 0, -Weekday(DayOf(t)));
    Midnight(DayOf(AddDate(weekStart, 0, 0, wd))) + SecondOfDay(t)
  }

  /** The instants one step of the walk offers, in the order the rule names its days. */
  function Candidates(r: Rule, t: Instant): (cs: seq<Instant>)
    ensures |cs| == if NamesDays(r) then |r.byDay| else 1
  {
    if NamesDays(r) then seq(|r.byDay|, i requires 0 <= i < |r.byDay| => OnWeekday(t, r.byDay[i])) else [t]
  }

  /** The candidates of every step taken until the walk passes stop or runs out of steps. */
  function Walk(r: Rule, t: Instant, stop: Instant, steps: nat): seq<Instant>
    decreases MAX_EXPANSION + 1 - steps
  {
    if t > stop || steps > MAX_EXPANSION then []
    else Candidates(r, t) + Walk(r, Step(r, t), stop, steps + 1)
  }

  function Between(cs: seq<Instant>, lo: Instant, hi: Instant): (kept: seq<Instant>)
    ensures forall x :: x in kept ==> lo <= x <= hi
  {
    if cs == [] then []
    else
      var front, c := Between(cs[..|cs| - 1], lo, hi), cs[|cs| - 1];
      if lo <= c <= hi then front + [c] else front
  }

  function AtOrAfter(cs: seq<Instant>, from: Instant): (kept: seq<Instant>)
    ensures forall x :: x in kept ==> from <= x && x in cs
  {
    if cs == [] then []
    else
      var front, c := AtOrAfter(cs[..|cs| - 1], from), cs[|cs| - 1];
      if from <= c then front + [c] else front
  }

  function Limited(cs: seq<Instant>, count: int): seq<Instant> {
    if 0 < count < |cs| then cs[..count] else cs
  }

  function StopAt(r: Rule, until: Instant): Instant {
    if r.until != 0 && r.until < until then r.until else until
  }

  /** The series itself: every step's candidates, clipped to the series and cut off after COUNT. */
  function Series(r: Rule, start: Instant, until: Instant): seq<Instant> {
    var stop := StopAt(r, until);
    Limited(Between(Walk(r, start, stop, 0), start, stop), r.count)
  }

  /** What the reader keeps of it: the occurrences inside the window. */
  function Occurring(r: Rule, start: Instant, from: Instant, until: Instant): seq<Instant> {
    AtOrAfter(Series(r, start, until), from)
  }

  lemma {:induction false} BetweenConcat(xs: seq<Instant>, ys: seq<Instant>, lo: Instant, hi: Instant)
    ensures Between(xs + ys, lo, hi) == Between(xs, lo, hi) + Between(ys, lo, hi)
    decreases |ys|
  {
    if ys == [] {
      assert xs + ys == xs;
    } else {
      BetweenConcat(xs, ys[..|ys| - 1], lo, hi);
      assert (xs + ys)[..|xs + ys| - 1] == xs + ys[..|ys| - 1];
    }
  }

  lemma BetweenCons(c: Instant, ys: seq<Instant>, lo: Instant, hi: Instant)
    ensures Between([c] + ys, lo, hi) == (if lo <= c <= hi then [c] else []) + Between(ys, lo, hi)
  {
    BetweenConcat([c], ys, lo, hi);
    assert [c][..0] == [];
  }

  lemma AtOrAfterSnoc(cs: seq<Instant>, c: Instant, from: Instant)
    ensures AtOrAfter(cs + [c], from) == AtOrAfter(cs, from) + if from <= c then [c] else []
  {
    assert (cs + [c])[..|cs|] == cs;
  }

  lemma WalkOpens(r: Rule, t: Instant, stop: Instant, steps: nat)
    ensures t > stop || steps > MAX_EXPANSION ==> Walk(r, t, stop, steps) == []
    ensures t <= stop && steps <= MAX_EXPANSION ==>
              Walk(r, t, stop, steps) == Candidates(r, t)[0..] + Walk(r, Step(r, t), stop, steps + 1)
  {
    hide Step, OnWeekday;
    assert Candidates(r, t)[0..] == Candidates(r, t);
  }

  lemma KeptSoFar(done: seq<Instant>, rest: seq<Instant>, from: Instant, lo: Instant, hi: Instant, count: int)
    ensures Between([], lo, hi) == [] && AtOrAfter([], from) == []
    ensures Between([] + rest, lo, hi) == Between(rest, lo, hi)
    ensures count <= 0 || |done| <= count ==> Limited(done, count) == done
  {
    assert [] + rest == rest;
  }

  /** The reader's walk, with its early return once COUNT is spent. */
  method Occurrences(r: Rule, start: Instant, from: Instant, until: Instant) returns (out: seq<Instant>)
    requires ValidRule(r)
    ensures out == Occurring(r, start, from, until)
  {
    hide Step, Candidates, Between, AtOrAfter, Limited, Walk;
    out := [];
    var stop := until;
    if r.until != 0 && r.until < stop {
      stop := r.until;
    }
    ghost var all := Between(Walk(r, start, stop, 0), start, stop);
    ghost var done: seq<Instant> := [];
    var emitted := 0;
    var cur, steps := start, 0;
    KeptSoFar(done, [], from, start, stop, r.count);
    while cur <= stop && steps <= MAX_EXPANSION
      invariant steps <= MAX_EXPANSION + 1
      invariant emitted == |done| && (r.count > 0 ==> emitted <= r.count)
      invariant out == AtOrAfter(done, from)
      invariant all == done + Between(Walk(r, cur, stop, steps), start, stop)
      decreases MAX_EXPANSION + 1 - steps
    {
      var candidates := Candidates(r, cur);
      ghost var rest := Walk(r, Step(r, cur), stop, steps + 1);
      WalkOpens(r, cur, stop, steps);
      var j := 0;
      while j < |candidates|
        invariant 0 <= j <= |candidates|
        invariant emitted == |done| && (r.count > 0 ==> emitted <= r.count)
        invariant out == AtOrAfter(done, from)
        invariant all == done + Between(candidates[j..] + rest, start, stop)
      {
        var c := candidates[j];
        NextCandidate(candidates, j, rest, start, stop, done);
        if c < start || c > stop {
          j := j + 1;
          continue;
        }
        if r.count > 0 && emitted >= r.count {
          CountIsSpent(all, done, c, Between(candidates[j + 1..] + rest, start, stop), r.count);
          return;
        }
        emitted := emitted + 1;
        AtOrAfterSnoc(done, c, from);
        done := done + [c];
        if c >= from {
          out := out + [c];
        }
        j := j + 1;
      }
      KeptSoFar(done, rest, from, start, stop, r.count);
      assert candidates[j..] == [];
      cur := Step(r, cur);
      steps := steps + 1;
    }
    WalkOpens(r, cur, stop, steps);
    KeptSoFar(done, [], from, start, stop, r.count);
    assert all == done;
  }

  lemma CountIsSpent(all: seq<Instant>, done: seq<Instant>, c: Instant, rest: seq<Instant>, count: int)
    requires all == done + [c] + rest && |done| == count > 0
    ensures Limited(all, count) == done
  {
  }

  lemma NextCandidate(cs: seq<Instant>, j: nat, rest: seq<Instant>, lo: Instant, hi: Instant, done: seq<Instant>)
    requires j < |cs|
    ensures done + Between(cs[j..] + rest, lo, hi)
         == (if lo <= cs[j] <= hi then done + [cs[j]] else done) + Between(cs[j + 1..] + rest, lo, hi)
  {
    assert cs[j..] + rest == [cs[j]] + (cs[j + 1..] + rest);
    BetweenCons(cs[j], cs[j + 1..] + rest, lo, hi);
  }

  // ----- COUNT belongs to the series, not to the window -----

  lemma {:induction false} AtOrAfterAll(cs: seq<Instant>, from: Instant)
    requires forall i :: 0 <= i < |cs| ==> from <= cs[i]
    ensures AtOrAfter(cs, from) == cs
  {
    if cs != [] {
      AtOrAfterAll(cs[..|cs| - 1], from);
    }
  }

  lemma SeriesStaysInBounds(r: Rule, start: Instant, until: Instant)
    ensures forall i :: 0 <= i < |Series(r, start, until)| ==> start <= Series(r, start, until)[i] <= StopAt(r, until)
  {
    var stop := StopAt(r, until);
    var kept := Between(Walk(r, start, stop, 0), start, stop);
    forall i | 0 <= i < |Series(r, start, until)|
      ensures start <= Series(r, start, until)[i] <= stop
    {
      assert Series(r, start, until)[i] == kept[i] && kept[i] in kept;
    }
  }

  /** A later window sees the same series, only less of it: nothing is counted afresh. */
  lemma WindowOnlyHides(r: Rule, start: Instant, from: Instant, until: Instant)
    ensures Occurring(r, start, from, until) == AtOrAfter(Occurring(r, start, start, until), from)
    ensures r.count > 0 ==> |Occurring(r, start, start, until)| <= r.count
  {
    SeriesStaysInBounds(r, start, until);
    AtOrAfterAll(Series(r, start, until), start);
  }

  // ----- distinct and ordered occurrences -----

  ghost predicate NoRepeats(xs: seq<int>) {
    forall i, j :: 0 <= i < j < |xs| ==> xs[i] != xs[j]
  }

  ghost predicate Ascending(xs: seq<int>) {
    forall i, j :: 0 <= i < j < |xs| ==> xs[i] < xs[j]
  }

  /** The earliest instant the rest of the walk can offer. */
  function Floor(r: Rule, t: Instant): Instant {
    if NamesDays(r) then t - Midnight(Weekday(DayOf(t))) else t
  }

  lemma OnWeekdayOffset(t: Instant, wd: int)
    ensures OnWeekday(t, wd) == t + Midnight(wd - Weekday(DayOf(t)))
  {
    hide CivilTime.AddDate;
    var back := -Weekday(DayOf(t));
    AddDays(t, back);
    AddDays(t + Midnight(back), wd);
    SplitInstant(t);
    JoinInstant(DayOf(t) + back + wd, SecondOfDay(t));
  }

  lemma WeekdayIsKept(day: int, weeks: int)
    ensures Weekday(day + 7 * weeks) == Weekday(day)
  {
  }

  lemma ShiftedDay(t: Instant, days: int)
    ensures DayOf(t + Midnight(days)) == DayOf(t) + days
  {
    SplitInstant(t);
    JoinInstant(DayOf(t) + days, SecondOfDay(t));
  }

  /** Every step offers instants of its own stretch of time, before anything later steps can offer. */
  lemma StepsDoNotOverlap(r: Rule, t: Instant)
    requires ValidRule(r)
    ensures Floor(r, t) < Floor(r, Step(r, t))
    ensures forall i :: 0 <= i < |Candidates(r, t)| ==> Floor(r, t) <= Candidates(r, t)[i] < Floor(r, Step(r, t))
  {
    hide CivilTime.AddDate;
    match r.freq
    case Daily => AddDays(t, r.interval);
    case Monthly => AddMonthsIncreases(t, 0, r.interval);
    case Yearly => AddMonthsIncreases(t, r.interval, 0);
    case Unknown => AddDays(t, 1);
    case Weekly =>
      AddDays(t, 7 * r.interval);
      if NamesDays(r) {
        WeekStep(r, t);
      }
  }

  lemma WeekStep(r: Rule, t: Instant)
    requires ValidRule(r) && NamesDays(r)
    ensures Floor(r, t) + Midnight(7) <= Floor(r, Step(r, t))
    ensures forall i :: 0 <= i < |Candidates(r, t)| ==>
              Candidates(r, t)[i] == Floor(r, t) + Midnight(r.byDay[i]) && Candidates(r, t)[i] < Floor(r, t) + Midnight(7)
  {
    hide CivilTime.AddDate;
    AddDays(t, 7 * r.interval);
    ShiftedDay(t, 7 * r.interval);
    WeekdayIsKept(DayOf(t), r.interval);
    forall i | 0 <= i < |Candidates(r, t)|
      ensures Candidates(r, t)[i] == Floor(r, t) + Midnight(r.byDay[i])
    {
      OnWeekdayOffset(t, r.byDay[i]);
    }
  }

  lemma {:induction false} WalkAboveFloor(r: Rule, t: Instant, stop: Instant, steps: nat)
    requires ValidRule(r)
    ensures forall i :: 0 <= i < |Walk(r, t, stop, steps)| ==> Floor(r, t) <= Walk(r, t, stop, steps)[i]
    decreases MAX_EXPANSION + 1 - steps
  {
    hide Step, OnWeekday, Floor;
    if t <= stop && steps <= MAX_EXPANSION {
      StepsDoNotOverlap(r, t);
      WalkAboveFloor(r, Step(r, t), stop, steps + 1);
    }
  }

  lemma CandidatesDiffer(r: Rule, t: Instant)
    requires ValidRule(r)
    ensures (NamesDays(r) ==> NoRepeats(r.byDay)) ==> NoRepeats(Candidates(r, t))
    ensures (NamesDays(r) ==> Ascending(r.byDay)) ==> Ascending(Candidates(r, t))
  {
    hide OnWeekday, Step, Floor;
    if NamesDays(r) {
      WeekStep(r, t);
    }
  }

  lemma {:induction false} WalkDistinct(r: Rule, t: Instant, stop: Instant, steps: nat)
    requires ValidRule(r) && (NamesDays(r) ==> NoRepeats(r.byDay))
    ensures NoRepeats(Walk(r, t, stop, steps))
    decreases MAX_EXPANSION + 1 - steps
  {
    hide Step, OnWeekday, Floor;
    if t <= stop && steps <= MAX_EXPANSION {
      StepsDoNotOverlap(r, t);
      CandidatesDiffer(r, t);
      WalkAboveFloor(r, Step(r, t), stop, steps + 1);
      WalkDistinct(r, Step(r, t), stop, steps + 1);
    }
  }

  lemma {:induction false} WalkAscending(r: Rule, t: Instant, stop: Instant, steps: nat)
    requires ValidRule(r) && (NamesDays(r) ==> Ascending(r.byDay))
    ensures Ascending(Walk(r, t, stop, steps))
    decreases MAX_EXPANSION + 1 - steps
  {
    hide Step, OnWeekday, Floor;
    if t <= stop && steps <= MAX_EXPANSION {
      StepsDoNotOverlap(r, t);
      CandidatesDiffer(r, t);
      WalkAboveFloor(r, Step(r, t), stop, steps + 1);
      WalkAscending(r, Step(r, t), stop, steps + 1);
    }
  }

  lemma SnocKeepsOrder(cs: seq<int>, c: int, kept: seq<int>)
    requires forall x :: x in kept ==> x in cs
    ensures NoRepeats(cs + [c]) ==> NoRepeats(cs) && (NoRepeats(kept) ==> NoRepeats(kept + [c]))
    ensures Ascending(cs + [c]) ==> Ascending(cs) && (Ascending(kept) ==> Ascending(kept + [c]))
  {
    var all := cs + [c];
    assert forall i :: 0 <= i < |cs| ==> all[i] == cs[i];
    assert all[|cs|] == c;
    forall i | 0 <= i < |kept|
      ensures NoRepeats(all) ==> kept[i] != c
      ensures Ascending(all) ==> kept[i] < c
    {
      var x := kept[i];
      assert x in kept;
      var k :| 0 <= k < |cs| && cs[k] == x;
      assert all[k] == x;
    }
  }

  lemma {:induction false} BetweenKeepsOrder(cs: seq<Instant>, lo: Instant, hi: Instant)
    ensures forall x :: x in Between(cs, lo, hi) ==> x in cs
    ensures NoRepeats(cs) ==> NoRepeats(Between(cs, lo, hi))
    ensures Ascending(cs) ==> Ascending(Between(cs, lo, hi))
  {
    if cs != [] {
      var front := cs[..|cs| - 1];
      BetweenKeepsOrder(front, lo, hi);
      SnocKeepsOrder(front, cs[|cs| - 1], Between(front, lo, hi));
    }
  }

  lemma {:induction false} AtOrAfterKeepsOrder(cs: seq<Instant>, from: Instant)
    ensures NoRepeats(cs) ==> NoRepeats(AtOrAfter(cs, from))
    ensures Ascending(cs) ==> Ascending(AtOrAfter(cs, from))
  {
    if cs != [] {
      var front := cs[..|cs| - 1];
      AtOrAfterKeepsOrder(front, from);
      SnocKeepsOrder(front, cs[|cs| - 1], AtOrAfter(front, from));
    }
  }

  /** A rule, unless it is weekly and names a day twice, never offers an instant twice. */
  lemma OccurrencesAreDistinct(r: Rule, start: Instant, from: Instant, until: Instant)
    requires ValidRule(r) && (NamesDays(r) ==> NoRepeats(r.byDay))
    ensures NoRepeats(Occurring(r, start, from, until))
  {
    var stop := StopAt(r, until);
    WalkDistinct(r, start, stop, 0);
    BetweenKeepsOrder(Walk(r, start, stop, 0), start, stop);
    AtOrAfterKeepsOrder(Series(r, start, until), from);
  }

  /** A weekly rule that names its days in week order, like any other rule, yields its occurrences in time order. */
  lemma OccurrencesAscend(r: Rule, start: Instant, from: Instant, until: Instant)
    requires ValidRule(r) && (NamesDays(r) ==> Ascending(r.byDay))
    ensures Ascending(Occurring(r, start, from, until))
  {
    var stop := StopAt(r, until);
    WalkAscending(r, start, stop, 0);
    BetweenKeepsOrder(Walk(r, start, stop, 0), start, stop);
    AtOrAfterKeepsOrder(Series(r, start, until), from);
  }

  // ----- months and years -----

  /** The months a step of a monthly or yearly rule moves by. */
  function MonthsAhead(r: Rule): int {
    if r.freq == Monthly then r.interval else 12 * r.interval
  }

  lemma MonthNumber(year: int, months: int, years: int, month: int)
    requires 1 <= month <= 12
    ensures var m0 := month - 1 + months;
            var n := 12 * (year + years) + m0;
            n / 12 == year + years + m0 / 12 && n % 12 == m0 % 12
  {
    var m0 := month - 1 + months;
    DivUnique(12 * (year + years) + m0, 12, year + years + m0 / 12, m0 % 12);
  }

  /**
   A monthly or yearly step keeps the time of day and the day of the month, the given number of months ahead; a day
   that month does not have runs over into the next.
   */
  lemma StepKeepsDay(r: Rule, t: Instant)
    requires ValidRule(r) && (r.freq == Monthly || r.freq == Yearly)
    ensures var d := CivilOf(DayOf(t));
            var n := 12 * d.year + d.month - 1 + MonthsAhead(r);
            var y, m := n / 12, n % 12 + 1;
            && SecondOfDay(Step(r, t)) == SecondOfDay(t)
            && CivilOf(DayOf(Step(r, t))) ==
               if d.day <= DaysInMonth(y, m) then Date(y, m, d.day) else Date(y, m + 1, d.day - DaysInMonth(y, m))
  {
    hide CivilTime.CivilOf, MonthStart;
    var d := CivilOf(DayOf(t));
    var years, months := if r.freq == Yearly then r.interval else 0, if r.freq == Monthly then r.interval else 0;
    MonthNumber(d.year, months, years, d.month);
    var n := 12 * d.year + d.month - 1 + MonthsAhead(r);
    DayInMonth(n / 12, n % 12 + 1, d.day);
    JoinInstant(ShiftDay(d, years, months, 0), SecondOfDay(t));
  }

  /** The date some days after the first of a month: of that month, or of the next when it is not that long. */
  lemma DayInMonth(y: int, m: int, day: int)
    requires 1 <= m <= 12 && 1 <= day <= 31
    ensures CivilOf(MonthStart(y, m) + day - 1) ==
            if day <= DaysInMonth(y, m) then Date(y, m, day) else Date(y, m + 1, day - DaysInMonth(y, m))
  {
    hide CivilTime.CivilOf;
    if day <= DaysInMonth(y, m) {
      CivilOfDayNumber(Date(y, m, day));
    } else {
      CivilOfDayNumber(Date(y, m + 1, day - DaysInMonth(y, m)));
    }
  }

  // ----- what the stop test misses -----

  /** The candidates of the first n steps, whether or not they lie past the stop. */
  function FullWalk(r: Rule, t: Instant, n: nat): seq<Instant>
    decreases n
  {
    if n == 0 then [] else Candidates(r, t) + FullWalk(r, Step(r, t), n - 1)
  }

  /** Where the walk stands when it first passes stop, or after n steps. */
  function FirstPast(r: Rule, t: Instant, stop: Instant, n: nat): (p: (Instant, nat))
    ensures p.1 <= n
    ensures p.1 > 0 ==> p.0 > stop
    decreases n
  {
    if n == 0 || t > stop then (t, n) else FirstPast(r, Step(r, t), stop, n - 1)
  }

  lemma {:induction false} NothingLater(r: Rule, t: Instant, lo: Instant, stop: Instant, n: nat)
    requires ValidRule(r) && stop < Floor(r, t)
    ensures Between(FullWalk(r, t, n), lo, stop) == []
    decreases n
  {
    hide Step, OnWeekday, Floor;
    if n > 0 {
      StepsDoNotOverlap(r, t);
      NothingLater(r, Step(r, t), lo, stop, n - 1);
      NoneBetween(Candidates(r, t), lo, stop);
      BetweenConcat(Candidates(r, t), FullWalk(r, Step(r, t), n - 1), lo, stop);
    }
  }

  lemma {:induction false} NoneBetween(cs: seq<Instant>, lo: Instant, hi: Instant)
    requires forall i :: 0 <= i < |cs| ==> hi < cs[i]
    ensures Between(cs, lo, hi) == []
  {
    if cs != [] {
      NoneBetween(cs[..|cs| - 1], lo, hi);
    }
  }

  lemma PastStaysPast(r: Rule, t: Instant, stop: Instant)
    requires ValidRule(r) && t > stop
    ensures stop < Floor(r, Step(r, t))
  {
    hide Step, OnWeekday;
    StepsDoNotOverlap(r, t);
    if NamesDays(r) {
      WeekStep(r, t);
    }
  }

  lemma {:induction false} WalkVersusFullWalk(r: Rule, t: Instant, lo: Instant, stop: Instant, steps: nat)
    requires ValidRule(r) && steps <= MAX_EXPANSION + 1
    ensures var n := MAX_EXPANSION + 1 - steps;
            var past := FirstPast(r, t, stop, n);
            Between(FullWalk(r, t, n), lo, stop)
            == Between(Walk(r, t, stop, steps), lo, stop)
               + if past.1 == 0 then [] else Between(Candidates(r, past.0), lo, stop)
    decreases MAX_EXPANSION + 1 - steps
  {
    hide Step, OnWeekday, Floor, Candidates, Between;
    var n := MAX_EXPANSION + 1 - steps;
    NoneBetween([], lo, stop);
    if n > 0 {
      var rest := FullWalk(r, Step(r, t), n - 1);
      BetweenConcat(Candidates(r, t), rest, lo, stop);
      if t > stop {
        PastStaysPast(r, t, stop);
        NothingLater(r, Step(r, t), lo, stop, n - 1);
      } else {
        WalkVersusFullWalk(r, Step(r, t), lo, stop, steps + 1);
        BetweenConcat(Candidates(r, t), Walk(r, Step(r, t), stop, steps + 1), lo, stop);
      }
    }
  }

  /** The series as the rule describes it, up to the step limit: no day up to the stop is left out. */
  function FullSeries(r: Rule, start: Instant, until: Instant): seq<Instant> {
    Limited(Between(FullWalk(r, start, MAX_EXPANSION + 1), start, StopAt(r, until)), r.count)
  }

  /** The named days up to the stop in the week in which the walk passes it, as far as COUNT still allows them. */
  function LostDays(r: Rule, start: Instant, until: Instant): seq<Instant> {
    var stop := StopAt(r, until);
    var past := FirstPast(r, start, stop, MAX_EXPANSION + 1);
    var week := if past.1 == 0 then [] else Between(Candidates(r, past.0), start, stop);
    var emitted := |Between(Walk(r, start, stop, 0), start, stop)|;
    if r.count <= 0 then week else if emitted >= r.count then [] else Limited(week, r.count - emitted)
  }

  lemma LimitedConcat(xs: seq<Instant>, ys: seq<Instant>, count: int)
    ensures Limited(xs + ys, count) ==
            Limited(xs, count)
            + if count <= 0 then ys else if |xs| >= count then [] else Limited(ys, count - |xs|)
  {
  }

  lemma {:induction false} AtOrAfterConcat(xs: seq<Instant>, ys: seq<Instant>, from: Instant)
    ensures AtOrAfter(xs + ys, from) == AtOrAfter(xs, from) + AtOrAfter(ys, from)
    decreases |ys|
  {
    if ys == [] {
      assert xs + ys == xs;
    } else {
      var n := |ys| - 1;
      AtOrAfterConcat(xs, ys[..n], from);
      assert xs + ys == (xs + ys[..n]) + [ys[n]];
      AtOrAfterSnoc(xs + ys[..n], ys[n], from);
    }
  }

  /**
   The walk stops when the step itself passes the stop, so named days earlier in that last week are lost, unless COUNT
   is spent. The reader returns all that the rule describes in the window, up to the step limit, exactly when none of
   the days so lost is in the window.
   */
  lemma CompleteUnlessLastWeek(r: Rule, start: Instant, from: Instant, until: Instant)
    requires ValidRule(r)
    ensures var full, lost := AtOrAfter(FullSeries(r, start, until), from), AtOrAfter(LostDays(r, start, until), from);
            && full == Occurring(r, start, from, until) + lost
            && (Occurring(r, start, from, until) == full <==> lost == [])
  {
    hide Walk, FullWalk, FirstPast, Candidates, Between, AtOrAfter, Limited;
    var stop := StopAt(r, until);
    var past := FirstPast(r, start, stop, MAX_EXPANSION + 1);
    var walked := Between(Walk(r, start, stop, 0), start, stop);
    var week := if past.1 == 0 then [] else Between(Candidates(r, past.0), start, stop);
    WalkVersusFullWalk(r, start, start, stop, 0);
    LimitedConcat(walked, week, r.count);
    assert FullSeries(r, start, until) == Series(r, start, until) + LostDays(r, start, until);
    AtOrAfterConcat(Series(r, start, until), LostDays(r, start, until), from);
  }

  /** Every Monday from a Wednesday on, until the next Monday. */
  const NEXT_MONDAY: Rule := Rule(Weekly, 1, 0, 14 * SECONDS_PER_DAY, [1])

  lemma SingleDay(r: Rule, t: Instant, c: Instant, lo: Instant, hi: Instant)
    requires Candidates(r, t) == [c]
    ensures Between(Candidates(r, t), lo, hi) == if lo <= c <= hi then [c] else []
  {
    hide Candidates;
    assert [c][..0] == [] && Between([], lo, hi) == [];
  }

  /** That Monday is on the rule and in the window, and is not returned: the next step is the Wednesday after it. */
  lemma LastMondayIsLost(until: Instant)
    requires until >= Midnight(14)
    ensures Weekday(9) == 3 && Weekday(14) == 1
    ensures Occurring(NEXT_MONDAY, Midnight(9), Midnight(9), until) == []
    ensures LostDays(NEXT_MONDAY, Midnight(9), until) == [Midnight(14)]
  {
    hide CivilTime.AddDate, OnWeekday, Candidates, Between;
    var r, start, stop := NEXT_MONDAY, Midnight(9), Midnight(14);
    AddDays(start, 7);
    NamedMonday(start, 9);
    NamedMonday(Midnight(16), 16);
    SingleDay(r, start, Midnight(7), start, stop);
    SingleDay(r, Midnight(16), Midnight(14), start, stop);
    assert Step(r, start) == Midnight(16);
    assert Walk(r, start, stop, 0) == Candidates(r, start) + [] == Candidates(r, start);
    assert FirstPast(r, start, stop, MAX_EXPANSION + 1) == (Midnight(16), MAX_EXPANSION);
    assert AtOrAfter([], start) == [];
  }

  lemma NamedMonday(t: Instant, day: int)
    requires t == Midnight(day) && Weekday(day) == 3
    ensures Candidates(NEXT_MONDAY, t) == [Midnight(day - 2)]
  {
    hide OnWeekday;
    JoinInstant(day, 0);
    OnWeekdayOffset(t, 1);
  }

  // ----- evenly spaced rules -----

  /** The spacing of a rule that moves by whole days and names no weekdays. */
  function Period(r: Rule): Instant {
    if r.freq == Daily then Midnight(r.interval)
    else if r.freq == Weekly then Midnight(7 * r.interval)
    else Midnight(1)
  }

  predicate EvenlySpaced(r: Rule) {
    r.freq == Daily || r.freq == Unknown || (r.freq == Weekly && r.byDay == [])
  }

  /** Such a walk is an arithmetic progression, and only the stop or the step limit ends it. */
  lemma {:induction false} EvenWalk(r: Rule, t: Instant, stop: Instant, steps: nat)
    requires ValidRule(r) && EvenlySpaced(r) && steps <= MAX_EXPANSION + 1
    ensures var w := Walk(r, t, stop, steps);
            && |w| <= MAX_EXPANSION + 1 - steps
            && (forall k :: 0 <= k < |w| ==> w[k] == t + k * Period(r) && w[k] <= stop)
            && (|w| == MAX_EXPANSION + 1 - steps || t + |w| * Period(r) > stop)
    decreases MAX_EXPANSION + 1 - steps
  {
    hide CivilTime.AddDate;
    if t <= stop && steps <= MAX_EXPANSION {
      AddDays(t, if r.freq == Daily then r.interval else if r.freq == Weekly then 7 * r.interval else 1);
      EvenWalk(r, Step(r, t), stop, steps + 1);
      var w, w' := Walk(r, t, stop, steps), Walk(r, Step(r, t), stop, steps + 1);
      assert w == [t] + w';
      forall k | 0 <= k < |w|
        ensures w[k] == t + k * Period(r) && w[k] <= stop
      {
        if k > 0 {
          assert w[k] == w'[k - 1];
          Spread(Period(r), k - 1);
        }
      }
      Spread(Period(r), |w'|);
    }
  }

  lemma Spread(p: int, k: int)
    ensures p + k * p == (k + 1) * p
  {
  }

  lemma {:induction false} BetweenAll(cs: seq<Instant>, lo: Instant, hi: Instant)
    requires forall i :: 0 <= i < |cs| ==> lo <= cs[i] <= hi
    ensures Between(cs, lo, hi) == cs
  {
    if cs != [] {
      BetweenAll(cs[..|cs| - 1], lo, hi);
    }
  }

  lemma PeriodsAdd(p: int, k: nat)
    requires p >= 0
    ensures 0 <= k * p
  {
  }

  /** An unlimited evenly spaced rule fills the step limit when the window is long enough. */
  lemma EvenSeries(r: Rule, start: Instant, from: Instant, until: Instant)
    requires ValidRule(r) && EvenlySpaced(r) && r.count == 0 && r.until == 0
    requires from <= start && start + MAX_EXPANSION * Period(r) <= until
    ensures |Occurring(r, start, from, until)| == MAX_EXPANSION + 1
    ensures forall k :: 0 <= k <= MAX_EXPANSION ==> Occurring(r, start, from, until)[k] == start + k * Period(r)
  {
    hide Walk;
    EvenWalk(r, start, until, 0);
    var w := Walk(r, start, until, 0);
    if |w| <= MAX_EXPANSION {
      LessThan(|w|, MAX_EXPANSION, Period(r));
    }
    forall i | 0 <= i < |w|
      ensures start <= w[i]
    {
      PeriodsAdd(Period(r), i);
    }
    BetweenAll(w, start, until);
    AtOrAfterAll(w, from);
  }

  lemma LessThan(a: nat, b: nat, p: int)
    requires a <= b && p >= 0
    ensures a * p <= b * p
  {
  }
}
