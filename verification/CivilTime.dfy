/**
 Proleptic Gregorian calendar arithmetic, as the feed reader, the feed writer and the month grid use it.

 An instant is a number of whole seconds since 0001-01-01T00:00:00 UTC, so the zero instant is the
 zero time of the original. A day is named by its day number, counted from 0001-01-01.
 */
module CivilTime {
  import opened Prelude

  type Instant = int

  const SECONDS_PER_DAY: int := 86400

  datatype Date = Date(year: int, month: int, day: int)

  predicate IsLeap(y: int) {
    y % 4 == 0 && (y % 100 != 0 || y % 400 == 0)
  }

  function DaysInYear(y: int): int {
    if IsLeap(y) then 366 else 365
  }

  function DaysInMonth(y: int, m: int): int
    requires 1 <= m <= 12
  {
    if m == 2 then (if IsLeap(y) then 29 else 28)
    else if m == 4 || m == 6 || m == 9 || m == 11 then 30
    else 31
  }

  /** Days from 0001-01-01 to the first of January of year y. */
  function DaysBeforeYear(y: int): int {
    var k := y - 1;
    365 * k + k / 4 - k / 100 + k / 400
  }

  /** Days from the first of January of year y to the first of month m; m = 13 is the next January. */
  function DaysBeforeMonth(y: int, m: int): int
    requires 1 <= m <= 13
    decreases m
  {
    if m == 1 then 0 else DaysBeforeMonth(y, m - 1) + DaysInMonth(y, m - 1)
  }

  function MonthStart(y: int, m: int): int
    requires 1 <= m <= 12
  {
    DaysBeforeYear(y) + DaysBeforeMonth(y, m)
  }

  predicate ValidDate(d: Date) {
    1 <= d.month <= 12 && 1 <= d.day <= DaysInMonth(d.year, d.month)
  }

  function DayNumber(d: Date): int
    requires 1 <= d.month <= 12
  {
    MonthStart(d.year, d.month) + d.day - 1
  }

  /** The last year, counting up from y, that starts on or before day n. */
  function YearFrom(y: int, n: int): (r: int)
    requires DaysBeforeYear(y) <= n
    ensures DaysBeforeYear(r) <= n < DaysBeforeYear(r + 1)
    decreases n - DaysBeforeYear(y)
  {
    YearLength(y);
    if n < DaysBeforeYear(y + 1) then y else YearFrom(y + 1, n)
  }

  function YearOf(n: int): (r: int)
    ensures DaysBeforeYear(r) <= n < DaysBeforeYear(r + 1)
  {
    YearGuess(n);
    YearFrom(if n < 0 then n / 365 + 1 else n / 366 + 1, n)
  }

  /** The last month of year y, counting up from m, that starts on or before day r of the year. */
  function MonthFrom(y: int, m: int, r: int): (k: int)
    requires 1 <= m <= 12
    requires DaysBeforeMonth(y, m) <= r < DaysInYear(y)
    ensures 1 <= k <= 12
    ensures DaysBeforeMonth(y, k) <= r < DaysBeforeMonth(y, k + 1)
    decreases 12 - m
  {
    MonthsFillYear(y);
    if m == 12 || r < DaysBeforeMonth(y, m + 1) then m else MonthFrom(y, m + 1, r)
  }

  /** The calendar date of day number n. */
  function CivilOf(n: int): (d: Date)
    ensures ValidDate(d) && DayNumber(d) == n
  {
    var y := YearOf(n);
    YearLength(y);
    var r := n - DaysBeforeYear(y);
    var m := MonthFrom(y, 1, r);
    Date(y, m, r - DaysBeforeMonth(y, m) + 1)
  }

  function DayOf(t: Instant): int { t / SECONDS_PER_DAY }

  function SecondOfDay(t: Instant): (s: int)
    ensures 0 <= s < SECONDS_PER_DAY
  {
    t % SECONDS_PER_DAY
  }

  function Midnight(day: int): Instant { day * SECONDS_PER_DAY }

  /** Sunday is 0. 0001-01-01 was a Monday. */
  function Weekday(day: int): (w: int)
    ensures 0 <= w < 7
  {
    (day + 1) % 7
  }

  /**
   Adds years, months and days to an instant. An overlong month runs over into the next one:
   31 January plus a month is 2 or 3 March.
   */
  function AddDate(t: Instant, years: int, months: int, days: int): Instant {
    Midnight(ShiftDay(CivilOf(DayOf(t)), years, months, days)) + SecondOfDay(t)
  }

  /** The day number reached from date d. */
  function ShiftDay(d: Date, years: int, months: int, days: int): int {
    var m0 := d.month - 1 + months;
    MonthStart(d.year + years + m0 / 12, m0 % 12 + 1) + d.day - 1 + days
  }

  // ----- lengths of years and months -----

  lemma DivStep(k: int, d: int)
    requires d > 0
    ensures (k + 1) / d == k / d + (if (k + 1) % d == 0 then 1 else 0)
  {
    var q, r := k / d, k % d;
    assert k == d * q + r && 0 <= r < d;
    if r + 1 == d {
      assert k + 1 == d * (q + 1);
      DivUnique(k + 1, d, q + 1, 0);
    } else {
      DivUnique(k + 1, d, q, r + 1);
    }
  }

  lemma YearLength(y: int)
    ensures DaysBeforeYear(y + 1) == DaysBeforeYear(y) + DaysInYear(y)
  {
    DivStep(y - 1, 4);
    DivStep(y - 1, 100);
    DivStep(y - 1, 400);
  }

  lemma YearGuess(n: int)
    ensures n >= 0 ==> DaysBeforeYear(n / 366 + 1) <= n
    ensures n < 0 ==> DaysBeforeYear(n / 365 + 1) <= n
  {
    if n >= 0 {
      var k := n / 366;
      assert 366 * k <= n;
      assert k / 4 - k / 100 + k / 400 <= k;
    } else {
      var k := n / 365;
      assert 365 * k <= n && k < 0;
      assert k / 4 - k / 100 + k / 400 <= 0;
    }
  }

  lemma MonthsFillYear(y: int)
    ensures DaysBeforeMonth(y, 13) == DaysInYear(y)
  {
    assert DaysBeforeMonth(y, 2) == 31;
    assert DaysBeforeMonth(y, 4) == DaysBeforeMonth(y, 3) + 31;
    assert DaysBeforeMonth(y, 6) == DaysBeforeMonth(y, 4) + 61;
    assert DaysBeforeMonth(y, 8) == DaysBeforeMonth(y, 6) + 61;
    assert DaysBeforeMonth(y, 10) == DaysBeforeMonth(y, 8) + 61;
    assert DaysBeforeMonth(y, 12) == DaysBeforeMonth(y, 10) + 61;
  }

  lemma {:induction false} MonthsIncrease(y: int, m: int, m': int)
    requires 1 <= m <= m' <= 13
    ensures DaysBeforeMonth(y, m) + 28 * (m' - m) <= DaysBeforeMonth(y, m')
    decreases m' - m
  {
    if m < m' {
      MonthsIncrease(y, m, m' - 1);
    }
  }

  lemma {:induction false} YearsIncrease(y: int, y': int)
    requires y <= y'
    ensures DaysBeforeYear(y) + 365 * (y' - y) <= DaysBeforeYear(y')
    decreases y' - y
  {
    if y < y' {
      YearsIncrease(y, y' - 1);
      YearLength(y' - 1);
    }
  }

  /** A later month starts on a later day. */
  lemma MonthStartIncreases(y: int, m: int, y': int, m': int)
    requires 1 <= m <= 12 && 1 <= m' <= 12
    requires 12 * y + m < 12 * y' + m'
    ensures MonthStart(y, m) + DaysInMonth(y, m) <= MonthStart(y', m')
    ensures MonthStart(y, m) + 28 <= MonthStart(y', m')
  {
    if y == y' {
      MonthsIncrease(y, m + 1, m');
    } else {
      MonthEndsByYearEnd(y, m);
      YearsIncrease(y + 1, y');
      MonthsIncrease(y', 1, m');
    }
  }

  lemma MonthEndsByYearEnd(y: int, m: int)
    requires 1 <= m <= 12
    ensures MonthStart(y, m) + DaysInMonth(y, m) <= DaysBeforeYear(y + 1)
  {
    MonthsIncrease(y, m + 1, 13);
    MonthsFillYear(y);
    YearLength(y);
  }

  lemma LaterMonthIsLaterDay(d: Date, e: Date)
    requires ValidDate(d) && ValidDate(e)
    requires d.year < e.year || (d.year == e.year && d.month < e.month)
    ensures DayNumber(d) < DayNumber(e)
  {
    MonthStartIncreases(d.year, d.month, e.year, e.month);
  }

  /** Day numbers order dates the way people do: by year, then month, then day. */
  lemma DayNumberOrders(d: Date, e: Date)
    requires ValidDate(d) && ValidDate(e)
    ensures DayNumber(d) < DayNumber(e) <==>
            d.year < e.year || (d.year == e.year && (d.month < e.month || (d.month == e.month && d.day < e.day)))
  {
    if d.year < e.year || (d.year == e.year && d.month < e.month) {
      LaterMonthIsLaterDay(d, e);
    } else if e.year < d.year || (d.year == e.year && e.month < d.month) {
      LaterMonthIsLaterDay(e, d);
    }
  }

  /** Dates and day numbers determine each other. */
  lemma CivilOfDayNumber(d: Date)
    requires ValidDate(d)
    ensures CivilOf(DayNumber(d)) == d
  {
    DayNumberOrders(d, CivilOf(DayNumber(d)));
    DayNumberOrders(CivilOf(DayNumber(d)), d);
  }

  // ----- instants -----

  lemma SplitInstant(t: Instant)
    ensures t == Midnight(DayOf(t)) + SecondOfDay(t)
  {
  }

  lemma JoinInstant(day: int, second: int)
    requires 0 <= second < SECONDS_PER_DAY
    ensures DayOf(Midnight(day) + second) == day && SecondOfDay(Midnight(day) + second) == second
  {
    DivUnique(Midnight(day) + second, SECONDS_PER_DAY, day, second);
  }

  lemma ShiftByDays(d: Date, days: int)
    requires ValidDate(d)
    ensures ShiftDay(d, 0, 0, days) == DayNumber(d) + days
  {
    DivUnique(d.month - 1, 12, 0, d.month - 1);
  }

  lemma MonthCarry(year: int, m0: int)
    ensures 12 * (year + m0 / 12) + m0 % 12 == 12 * year + m0
  {
  }

  lemma ShiftByMonths(d: Date, years: nat, months: nat)
    requires ValidDate(d)
    requires years > 0 || months > 0
    ensures ShiftDay(d, years, months, 0) >= DayNumber(d) + 28
  {
    var m0 := d.month - 1 + months;
    var y', m' := d.year + years + m0 / 12, m0 % 12 + 1;
    MonthCarry(d.year + years, m0);
    MonthStartIncreases(d.year, d.month, y', m');
    assert ShiftDay(d, years, months, 0) == MonthStart(y', m') + d.day - 1;
  }

  /** Moving by days moves the instant by whole days. */
  lemma AddDays(t: Instant, days: int)
    ensures AddDate(t, 0, 0, days) == t + Midnight(days)
  {
    ShiftByDays(CivilOf(DayOf(t)), days);
    SplitInstant(t);
  }

  /** Moving forward by at least one month or year is at least 28 days later. */
  lemma AddMonthsIncreases(t: Instant, years: nat, months: nat)
    requires years > 0 || months > 0
    ensures AddDate(t, years, months, 0) >= t + Midnight(28)
  {
    ShiftByMonths(CivilOf(DayOf(t)), years, months);
    SplitInstant(t);
  }
}
