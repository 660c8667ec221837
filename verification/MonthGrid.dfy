/** A month laid out as whole weeks, with each event on every day it touches, and the window of time to fetch for it. */
module MonthGrid {
  import opened Prelude
  import opened CivilTime

  datatype Event = Event(id: nat, title: string, starts: Instant, ends: Option<Instant>)

  /** An event as it appears on one day: whether that day is its first, and whether it is its last. */
  datatype DayEvent = DayEvent(event: Event, isFirstDay: bool, isLastDay: bool)

  datatype DayCell = DayCell(date: Instant, inMonth: bool, isToday: bool, events: seq<DayEvent>)

  datatype YearMonth = YearMonth(year: int, month: int)

  datatype Grid = Grid(prev: YearMonth, next: YearMonth, today: YearMonth, weeks: seq<seq<DayCell>>)

  // ----- the specification -----

  function FirstDay(year: int, month: int): int
    requires 1 <= month <= 12
  {
    MonthStart(year, month)
  }

  function LastDay(year: int, month: int): int
    requires 1 <= month <= 12
  {
    MonthStart(year, month) + DaysInMonth(year, month) - 1
  }

  /** The Sunday on or before the first of the month. */
  function GridFirst(year: int, month: int): (day: int)
    requires 1 <= month <= 12
    ensures Weekday(day) == 0 && FirstDay(year, month) - 6 <= day <= FirstDay(year, month)
  {
    var first := FirstDay(year, month);
    WeekdayShift(first, -Weekday(first));
    first - Weekday(first)
  }

  /** The Saturday on or after the last of the month. */
  function GridLast(year: int, month: int): (day: int)
    requires 1 <= month <= 12
    ensures Weekday(day) == 6 && LastDay(year, month) <= day <= LastDay(year, month) + 6
  {
    var last := LastDay(year, month);
    WeekdayShift(last, 6 - Weekday(last));
    last + (6 - Weekday(last))
  }

  lemma WeekdayShift(day: int, days: int)
    requires 0 <= Weekday(day) + days < 7
    ensures Weekday(day + days) == Weekday(day) + days
  {
    DivUnique(day + 1 + days, 7, (day + 1) / 7, (day + 1) % 7 + days);
  }

  function StartDay(e: Event): int { DayOf(e.starts) }

  /** The last day an event is shown on: that of its end, or of its start when it has none. */
  function EndDay(e: Event): int {
    if e.ends.Some? then DayOf(e.ends.value) else DayOf(e.starts)
  }

  predicate ShownOn(e: Event, day: int) {
    StartDay(e) <= day <= EndDay(e)
  }

  /** The events shown on a day, in the order given. */
  function EventsOn(events: seq<Event>, day: int): seq<DayEvent> {
    if events == [] then []
    else
      var front, e := EventsOn(events[..|events| - 1], day), events[|events| - 1];
      if ShownOn(e, day) then front + [DayEvent(e, day == StartDay(e), day == EndDay(e))] else front
  }

  function CellOn(events: seq<Event>, year: int, month: int, today: Instant, day: int): DayCell
    requires 1 <= month <= 12
  {
    DayCell(Midnight(day), FirstDay(year, month) <= day <= LastDay(year, month), day == DayOf(today), EventsOn(events, day))
  }

  function WeekFrom(events: seq<Event>, year: int, month: int, today: Instant, sunday: int, n: nat): (cells: seq<DayCell>)
    requires 1 <= month <= 12
    ensures |cells| == n
  {
    seq(n, i requires 0 <= i < n => CellOn(events, year, month, today, sunday + i))
  }

  /** The first n weeks of the grid. */
  function WeeksOf(events: seq<Event>, year: int, month: int, today: Instant, n: nat): (weeks: seq<seq<DayCell>>)
    requires 1 <= month <= 12
    ensures |weeks| == n
  {
    seq(n, w requires 0 <= w < n => WeekFrom(events, year, month, today, GridFirst(year, month) + 7 * w, 7))
  }

  /** How many weeks the grid has. */
  function WeekCount(year: int, month: int): (n: nat)
    requires 1 <= month <= 12
    ensures GridLast(year, month) == GridFirst(year, month) + 7 * n - 1
    ensures 4 <= n <= 6
  {
    var first, last := GridFirst(year, month), GridLast(year, month);
    WholeWeeks(first, last);
    (last - first + 1) / 7
  }

  /** From a Sunday to a Saturday is a whole number of weeks. */
  lemma WholeWeeks(first: int, last: int)
    requires Weekday(first) == 0 && Weekday(last) == 6
    ensures (last - first + 1) % 7 == 0
  {
    var p, q := (first + 1) / 7, (last + 1) / 7;
    DivUnique(last - first + 1, 7, q - p + 1, 0);
  }

  /** The month before and the month after. */
  function MonthBefore(year: int, month: int): YearMonth {
    if month == 1 then YearMonth(year - 1, 12) else YearMonth(year, month - 1)
  }

  function MonthAfter(year: int, month: int): YearMonth {
    if month == 12 then YearMonth(year + 1, 1) else YearMonth(year, month + 1)
  }

  function YearMonthOf(t: Instant): YearMonth {
    var d := CivilOf(DayOf(t));
    YearMonth(d.year, d.month)
  }

  // ----- date arithmetic -----

  lemma MidnightDay(day: int)
    ensures DayOf(Midnight(day)) == day
  {
    JoinInstant(day, 0);
  }

  lemma FirstOfMonth(year: int, month: int)
    requires 1 <= month <= 12
    ensures CivilOf(FirstDay(year, month)) == Date(year, month, 1)
  {
    CivilOfDayNumber(Date(year, month, 1));
  }

  lemma NextMonthStart(year: int, month: int)
    requires 1 <= month <= 12
    ensures MonthAfter(year, month).month >= 1
    ensures var n := MonthAfter(year, month); MonthStart(n.year, n.month) == MonthStart(year, month) + DaysInMonth(year, month)
  {
    if month == 12 {
      YearLength(year);
      MonthsFillYear(year);
    }
  }

  /** Stepping from the first of the month a month ahead and a day back lands on its last day. */
  lemma LastOfMonth(year: int, month: int)
    requires 1 <= month <= 12
    ensures AddDate(Midnight(FirstDay(year, month)), 0, 1, -1) == Midnight(LastDay(year, month))
    ensures YearMonthOf(AddDate(Midnight(FirstDay(year, month)), 0, 1, 0)) == MonthAfter(year, month)
  {
    hide DaysInMonth, MonthStart, CivilOf;
    MidnightDay(FirstDay(year, month));
    JoinInstant(FirstDay(year, month), 0);
    FirstOfMonth(year, month);
    NextMonthStart(year, month);
    ShiftMonth(year, month, 1, MonthAfter(year, month));
    var n := MonthAfter(year, month);
    MidnightDay(FirstDay(n.year, n.month));
    FirstOfMonth(n.year, n.month);
  }

  lemma MonthBack(year: int, month: int)
    requires 1 <= month <= 12
    ensures YearMonthOf(AddDate(Midnight(FirstDay(year, month)), 0, -1, 0)) == MonthBefore(year, month)
  {
    hide DaysInMonth, MonthStart, CivilOf;
    JoinInstant(FirstDay(year, month), 0);
    FirstOfMonth(year, month);
    var p := MonthBefore(year, month);
    ShiftMonth(year, month, -1, p);
    MidnightDay(FirstDay(p.year, p.month));
    FirstOfMonth(p.year, p.month);
  }

  lemma ShiftMonth(year: int, month: int, months: int, ym: YearMonth)
    requires 1 <= month <= 12 && 1 <= ym.month <= 12
    requires 12 * year + month + months == 12 * ym.year + ym.month
    ensures forall days :: ShiftDay(Date(year, month, 1), 0, months, days) == MonthStart(ym.year, ym.month) + days
  {
    hide MonthStart;
    DivUnique(month - 1 + months, 12, ym.year - year, ym.month - 1);
  }

  // ----- the implementation -----

  /** The events of one cell, collected in a loop over all of them. */
  method CellEvents(events: seq<Event>, cellDate: Instant) returns (shown: seq<DayEvent>)
    requires cellDate == Midnight(DayOf(cellDate))
    ensures shown == EventsOn(events, DayOf(cellDate))
  {
    shown := [];
    for i := 0 to |events|
      invariant shown == EventsOn(events[..i], DayOf(cellDate))
    {
      var e := events[i];
      EventsOnStep(events, i, DayOf(cellDate));
      var startDate := Midnight(DayOf(e.starts));
      var endDate := startDate;
      if e.ends.Some? {
        endDate := Midnight(DayOf(e.ends.value));
      }
      if cellDate < startDate || cellDate > endDate {
        continue;
      }
      shown := shown + [DayEvent(e, cellDate == startDate, cellDate == endDate)];
    }
    assert events[..|events|] == events;
  }

  lemma EventsOnStep(events: seq<Event>, i: nat, day: int)
    requires i < |events|
    ensures EventsOn(events[..i + 1], day) ==
            EventsOn(events[..i], day)
            + if ShownOn(events[i], day) then [DayEvent(events[i], day == StartDay(events[i]), day == EndDay(events[i]))] else []
  {
    assert events[..i + 1][..i] == events[..i];
  }

  /** Lays events out into whole weeks, day by day. */
  method BuildMonthGrid(events: seq<Event>, year: int, month: int, today: Instant) returns (grid: Grid)
    requires 1 <= month <= 12
    ensures grid.weeks == WeeksOf(events, year, month, today, WeekCount(year, month))
    ensures grid.prev == MonthBefore(year, month) && grid.next == MonthAfter(year, month)
    ensures grid.today == YearMonthOf(today)
  {
    hide EventsOn, MonthStart, DaysInMonth, CivilOf, WeekCount, GridFirst, GridLast, Weekday, WeekFrom, WeeksOf, CellOn,
         AddDate, YearMonthOf, MonthBefore, MonthAfter, FirstDay, LastDay;
    var firstOfMonth := Midnight(DayNumber(Date(year, month, 1)));
    GridEdges(year, month);
    var lastOfMonth := AddDate(firstOfMonth, 0, 1, -1);
    var gridStart := AddDate(firstOfMonth, 0, 0, -Weekday(DayOf(firstOfMonth)));
    var gridEnd := AddDate(lastOfMonth, 0, 0, 6 - Weekday(DayOf(lastOfMonth)));
    var todayDate := CivilOf(DayOf(today));
    var weeks: seq<seq<DayCell>> := [];
    var week: seq<DayCell> := [];
    var d := gridStart;
    NoWeeks(events, year, month, today);
    ghost var day := GridFirst(year, month);
    while d <= gridEnd
      invariant d == Midnight(day) && day == GridFirst(year, month) + 7 * |weeks| + |week| && |week| < 7
      invariant day <= GridLast(year, month) + 1
      invariant weeks == WeeksOf(events, year, month, today, |weeks|)
      invariant week == WeekFrom(events, year, month, today, GridFirst(year, month) + 7 * |weeks|, |week|)
      decreases GridLast(year, month) - day
    {
      MidnightDay(day);
      var date := CivilOf(DayOf(d));
      var cellDate := Midnight(DayNumber(date));
      var shown := CellEvents(events, cellDate);
      var cell := DayCell(cellDate, date.month == month,
                          date.year == todayDate.year && date.month == todayDate.month && date.day == todayDate.day, shown);
      CellIsRight(events, year, month, today, day, cell);
      WeekStep(events, year, month, today, GridFirst(year, month) + 7 * |weeks|, |week|);
      week := week + [cell];
      if |week| == 7 {
        WeeksStep(events, year, month, today, |weeks|);
        weeks := weeks + [week];
        week := [];
        NoDays(events, year, month, today, GridFirst(year, month) + 7 * |weeks|);
      }
      AddDays(d, 1);
      d := AddDate(d, 0, 0, 1);
      day := day + 1;
    }
    WholeGrid(year, month, |weeks|, |week|);
    MonthBack(year, month);
    LastOfMonth(year, month);
    grid := Grid(YearMonthOf(AddDate(firstOfMonth, 0, -1, 0)), YearMonthOf(AddDate(firstOfMonth, 0, 1, 0)),
                 YearMonthOf(today), weeks);
  }

  lemma GridEdges(year: int, month: int)
    requires 1 <= month <= 12
    ensures var first := Midnight(DayNumber(Date(year, month, 1)));
            var last := AddDate(first, 0, 1, -1);
            && first == Midnight(FirstDay(year, month))
            && AddDate(first, 0, 0, -Weekday(DayOf(first))) == Midnight(GridFirst(year, month))
            && AddDate(last, 0, 0, 6 - Weekday(DayOf(last))) == Midnight(GridLast(year, month))
            && GridFirst(year, month) <= GridLast(year, month) + 1
  {
    hide AddDate, DaysInMonth, MonthStart;
    var first, last := FirstDay(year, month), LastDay(year, month);
    LastOfMonth(year, month);
    MidnightDay(first);
    MidnightDay(last);
    AddDays(Midnight(first), -Weekday(first));
    AddDays(Midnight(last), 6 - Weekday(last));
    assert WeekCount(year, month) >= 4;
  }

  /** A date's month matches the grid's exactly inside it: the edges only reach into the neighbouring months. */
  lemma InMonthIff(year: int, month: int, day: int)
    requires 1 <= month <= 12 && GridFirst(year, month) <= day <= GridLast(year, month)
    ensures CivilOf(day).month == month <==> FirstDay(year, month) <= day <= LastDay(year, month)
  {
    hide DaysInMonth, GridFirst, GridLast;
    var d := CivilOf(day);
    GridNearMonth(year, month);
    if d.month == month {
      MonthWithin(year, month, d);
    } else {
      NotThisMonth(year, month, d);
    }
  }

  lemma GridNearMonth(year: int, month: int)
    requires 1 <= month <= 12
    ensures FirstDay(year, month) - 6 <= GridFirst(year, month) && GridLast(year, month) <= LastDay(year, month) + 6
  {
  }

  /** The same month of another year is at least eleven months away. */
  lemma MonthWithin(year: int, month: int, d: Date)
    requires 1 <= month <= 12 && ValidDate(d) && d.month == month
    requires FirstDay(year, month) - 6 <= DayNumber(d) <= LastDay(year, month) + 6
    ensures d.year == year && FirstDay(year, month) <= DayNumber(d) <= LastDay(year, month)
  {
    if d.year < year {
      MonthStartIncreases(d.year, month, d.year, 12);
      FarBefore(year, month, d);
    } else if d.year > year {
      FarAfter(year, month, d);
    }
  }

  lemma FarBefore(year: int, month: int, d: Date)
    requires 1 <= month <= 12 && ValidDate(d) && d.month == month && d.year < year
    ensures DayNumber(d) < FirstDay(year, month) - 6
  {
    var p := MonthBefore(year, month);
    MonthStartIncreases(d.year, month, p.year, p.month);
    MonthStartIncreases(p.year, p.month, year, month);
  }

  lemma FarAfter(year: int, month: int, d: Date)
    requires 1 <= month <= 12 && ValidDate(d) && d.month == month && d.year > year
    ensures DayNumber(d) > LastDay(year, month) + 6
  {
    var n := MonthAfter(year, month);
    NextMonthStart(year, month);
    MonthStartIncreases(n.year, n.month, d.year, month);
  }

  lemma NotThisMonth(year: int, month: int, d: Date)
    requires 1 <= month <= 12 && ValidDate(d) && d.month != month
    ensures !(FirstDay(year, month) <= DayNumber(d) <= LastDay(year, month))
  {
    if 12 * d.year + d.month < 12 * year + month {
      MonthStartIncreases(d.year, d.month, year, month);
    } else {
      MonthStartIncreases(year, month, d.year, d.month);
    }
  }

  lemma SameDateIff(x: int, y: int)
    ensures CivilOf(x) == CivilOf(y) <==> x == y
  {
    hide MonthStart;
    assert DayNumber(CivilOf(x)) == x && DayNumber(CivilOf(y)) == y;
  }

  lemma CellIsRight(events: seq<Event>, year: int, month: int, today: Instant, day: int, cell: DayCell)
    requires 1 <= month <= 12 && GridFirst(year, month) <= day <= GridLast(year, month)
    requires var date, now := CivilOf(day), CivilOf(DayOf(today));
             cell == DayCell(Midnight(DayNumber(date)), date.month == month,
                             date.year == now.year && date.month == now.month && date.day == now.day, EventsOn(events, day))
    ensures cell == CellOn(events, year, month, today, day)
  {
    hide MonthStart, CivilOf, EventsOn, GridFirst, GridLast;
    InMonthIff(year, month, day);
    SameDateIff(day, DayOf(today));
  }

  lemma NoWeeks(events: seq<Event>, year: int, month: int, today: Instant)
    requires 1 <= month <= 12
    ensures WeeksOf(events, year, month, today, 0) == []
    ensures WeekFrom(events, year, month, today, GridFirst(year, month), 0) == []
  {
  }

  lemma NoDays(events: seq<Event>, year: int, month: int, today: Instant, sunday: int)
    requires 1 <= month <= 12
    ensures WeekFrom(events, year, month, today, sunday, 0) == []
  {
  }

  lemma WeekStep(events: seq<Event>, year: int, month: int, today: Instant, sunday: int, n: nat)
    requires 1 <= month <= 12
    ensures WeekFrom(events, year, month, today, sunday, n + 1) ==
            WeekFrom(events, year, month, today, sunday, n) + [CellOn(events, year, month, today, sunday + n)]
  {
    hide CellOn;
  }

  lemma WeeksStep(events: seq<Event>, year: int, month: int, today: Instant, n: nat)
    requires 1 <= month <= 12
    ensures WeeksOf(events, year, month, today, n + 1) ==
            WeeksOf(events, year, month, today, n) + [WeekFrom(events, year, month, today, GridFirst(year, month) + 7 * n, 7)]
  {
    hide WeekFrom, GridFirst;
  }

  lemma WholeGrid(year: int, month: int, weeks: nat, days: nat)
    requires 1 <= month <= 12 && days < 7
    requires GridFirst(year, month) + 7 * weeks + days == GridLast(year, month) + 1
    ensures weeks == WeekCount(year, month) && days == 0
  {
    hide GridFirst, GridLast, Weekday;
    var n := WeekCount(year, month);
  }

  /** The instants a month grid spans, the end excluded. */
  method GridRange(year: int, month: int) returns (start: Instant, end: Instant)
    requires 1 <= month <= 12
    ensures start == Midnight(GridFirst(year, month)) && end == Midnight(GridLast(year, month) + 1)
  {
    hide AddDate, MonthStart, GridFirst, GridLast, Weekday;
    GridEdges(year, month);
    var firstOfMonth := Midnight(DayNumber(Date(year, month, 1)));
    var lastOfMonth := AddDate(firstOfMonth, 0, 1, -1);
    start := AddDate(firstOfMonth, 0, 0, -Weekday(DayOf(firstOfMonth)));
    var gridEnd := AddDate(lastOfMonth, 0, 0, 6 - Weekday(DayOf(lastOfMonth)));
    AddDays(gridEnd, 1);
    end := AddDate(gridEnd, 0, 0, 1);
  }

  // ----- what the grid shows -----

  lemma CellAt(events: seq<Event>, year: int, month: int, today: Instant, n: nat, w: int, i: int)
    requires 1 <= month <= 12 && 0 <= w < n && 0 <= i < 7
    ensures |WeeksOf(events, year, month, today, n)[w]| == 7
    ensures WeeksOf(events, year, month, today, n)[w][i] ==
            CellOn(events, year, month, today, GridFirst(year, month) + 7 * w + i)
  {
    hide CellOn, GridFirst;
  }

  /** Every row is a week from Sunday to Saturday, and the rows follow each other day by day. */
  lemma RowsAreWeeks(events: seq<Event>, year: int, month: int, today: Instant, w: nat, i: nat)
    requires 1 <= month <= 12 && w < WeekCount(year, month) && i < 7
    ensures var weeks := WeeksOf(events, year, month, today, WeekCount(year, month));
            && |weeks[w]| == 7
            && weeks[w][i].date == Midnight(GridFirst(year, month) + 7 * w + i)
            && Weekday(DayOf(weeks[w][i].date)) == i
            && weeks[0][0].date == Midnight(GridFirst(year, month))
            && weeks[WeekCount(year, month) - 1][6].date == Midnight(GridLast(year, month))
  {
    hide EventsOn, MonthStart, GridFirst, GridLast, WeeksOf;
    var n, sunday := WeekCount(year, month), GridFirst(year, month) + 7 * w;
    CellAt(events, year, month, today, n, w, i);
    CellAt(events, year, month, today, n, 0, 0);
    CellAt(events, year, month, today, n, n - 1, 6);
    MidnightDay(sunday + i);
    WeeksOn(GridFirst(year, month), w);
    WeekdayShift(sunday, i);
  }

  lemma WeeksOn(day: int, w: int)
    ensures Weekday(day + 7 * w) == Weekday(day)
  {
    DivUnique(day + 1 + 7 * w, 7, (day + 1) / 7 + w, (day + 1) % 7);
  }

  /** Each day of the month has exactly one cell, and exactly those cells are marked as in the month. */
  lemma EachDayOnce(events: seq<Event>, year: int, month: int, today: Instant, day: int)
    requires 1 <= month <= 12 && FirstDay(year, month) <= day <= LastDay(year, month)
    ensures var weeks: seq<seq<DayCell>> := WeeksOf(events, year, month, today, WeekCount(year, month));
            var n := day - GridFirst(year, month);
            && 0 <= n / 7 < |weeks|
            && weeks[n / 7][n % 7].date == Midnight(day) && weeks[n / 7][n % 7].inMonth
            && forall w, i :: 0 <= w < |weeks| && 0 <= i < 7 && weeks[w][i].date == Midnight(day) ==> w == n / 7 && i == n % 7
  {
    hide EventsOn, MonthStart, Weekday, WeeksOf, GridFirst;
    var weeks: seq<seq<DayCell>> := WeeksOf(events, year, month, today, WeekCount(year, month));
    var n := day - GridFirst(year, month);
    CellAt(events, year, month, today, WeekCount(year, month), n / 7, n % 7);
    forall w | 0 <= w < |weeks|
      ensures |weeks[w]| == 7
    {
      CellAt(events, year, month, today, WeekCount(year, month), w, 0);
    }
    forall w, i | 0 <= w < |weeks| && 0 <= i < 7 && weeks[w][i].date == Midnight(day)
      ensures w == n / 7 && i == n % 7
    {
      CellAt(events, year, month, today, WeekCount(year, month), w, i);
      DivUnique(n, 7, w, i);
    }
  }

  /** An event is on a day exactly when that day lies between its first and its last, and the flags mark those two. */
  lemma {:induction false} ShownExactlyBetween(events: seq<Event>, day: int, shown: DayEvent)
    ensures shown in EventsOn(events, day) <==>
            && shown.event in events
            && StartDay(shown.event) <= day <= EndDay(shown.event)
            && (shown.isFirstDay <==> day == StartDay(shown.event))
            && (shown.isLastDay <==> day == EndDay(shown.event))
    decreases |events|
  {
    hide StartDay, EndDay;
    if events != [] {
      var front, last := events[..|events| - 1], events[|events| - 1];
      ShownExactlyBetween(front, day, shown);
      assert events == front + [last];
    }
  }

  // ----- the window to fetch -----

  /** The query's overlap test. */
  predicate Overlaps(e: Event, rangeStart: Instant, rangeEnd: Instant) {
    e.starts < rangeEnd && (if e.ends.Some? then e.ends.value else e.starts) >= rangeStart
  }

  function Fetched(events: seq<Event>, rangeStart: Instant, rangeEnd: Instant): seq<Event> {
    if events == [] then []
    else
      var front, e := Fetched(events[..|events| - 1], rangeStart, rangeEnd), events[|events| - 1];
      if Overlaps(e, rangeStart, rangeEnd) then front + [e] else front
  }

  /** An event shown on any day of the range passes the overlap test. */
  lemma ShownIsFetched(e: Event, first: int, last: int, day: int)
    requires first <= day <= last && ShownOn(e, day)
    ensures Overlaps(e, Midnight(first), Midnight(last + 1))
  {
    SplitInstant(e.starts);
    if e.ends.Some? {
      SplitInstant(e.ends.value);
    }
  }

  /** An event that starts no later than it ends and passes the test is shown on some day of the range. */
  lemma FetchedIsShown(e: Event, first: int, last: int)
    requires first <= last && Overlaps(e, Midnight(first), Midnight(last + 1)) && StartDay(e) <= EndDay(e)
    ensures exists day :: first <= day <= last && ShownOn(e, day)
  {
    SplitInstant(e.starts);
    if e.ends.Some? {
      SplitInstant(e.ends.value);
    }
    var day := if StartDay(e) < first then first else StartDay(e);
    assert ShownOn(e, day);
  }

  lemma {:induction false} FetchedShowsSame(events: seq<Event>, first: int, last: int, day: int)
    requires first <= day <= last
    ensures EventsOn(Fetched(events, Midnight(first), Midnight(last + 1)), day) == EventsOn(events, day)
    decreases |events|
  {
    hide ShownOn, Overlaps, StartDay, EndDay;
    if events != [] {
      var front, e := events[..|events| - 1], events[|events| - 1];
      FetchedShowsSame(front, first, last, day);
      var fetched := Fetched(front, Midnight(first), Midnight(last + 1));
      assert (fetched + [e])[..|fetched|] == fetched;
      if ShownOn(e, day) {
        ShownIsFetched(e, first, last, day);
      }
    }
  }

  /** Building the grid from the events the window fetches gives the same grid as building it from all events. */
  lemma WindowIsEnough(events: seq<Event>, year: int, month: int, today: Instant)
    requires 1 <= month <= 12
    ensures var fetched := Fetched(events, Midnight(GridFirst(year, month)), Midnight(GridLast(year, month) + 1));
            var n := WeekCount(year, month);
            WeeksOf(fetched, year, month, today, n) == WeeksOf(events, year, month, today, n)
  {
    hide WeekFrom, GridFirst, GridLast;
    var first, last, n := GridFirst(year, month), GridLast(year, month), WeekCount(year, month);
    var fetched := Fetched(events, Midnight(first), Midnight(last + 1));
    var x, y := WeeksOf(fetched, year, month, today, n), WeeksOf(events, year, month, today, n);
    forall w | 0 <= w < n
      ensures x[w] == y[w]
    {
      SameWeek(events, year, month, today, first, last, first + 7 * w);
    }
  }

  lemma SameWeek(events: seq<Event>, year: int, month: int, today: Instant, first: int, last: int, sunday: int)
    requires 1 <= month <= 12 && first <= sunday && sunday + 6 <= last
    ensures var fetched := Fetched(events, Midnight(first), Midnight(last + 1));
            WeekFrom(fetched, year, month, today, sunday, 7) == WeekFrom(events, year, month, today, sunday, 7)
  {
    hide EventsOn, MonthStart, Fetched;
    var fetched := Fetched(events, Midnight(first), Midnight(last + 1));
    var x, y := WeekFrom(fetched, year, month, today, sunday, 7), WeekFrom(events, year, month, today, sunday, 7);
    forall i | 0 <= i < 7
      ensures x[i] == y[i]
    {
      FetchedShowsSame(events, first, last, sunday + i);
      assert x[i] == CellOn(fetched, year, month, today, sunday + i);
      assert y[i] == CellOn(events, year, month, today, sunday + i);
    }
  }
}
