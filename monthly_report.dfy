/** The monthly report screen: a 42-day calendar grid for the current month, previous and next
    month buttons, the shifts of a clicked day, and the shifts, earnings and hours of the month.
    A database snapshot is the sequence of children the query returned for the signed-in user's
    email; a None child is one that deserialises to null. */
module MonthlyReport {
  import opened Wrappers
  import opened Text
  import opened Dates
  import opened ShiftBean

  // ---------------------------------------------------------------- current month

  /** The year and the 0-based Calendar.MONTH (0 = January) of the screen's calendar; the day of
      month and the time of day it also holds never reach the grid or the reports. */
  datatype YearMonth = YearMonth(year: int, month0: int)

  predicate ValidMonth(ym: YearMonth) {
    0 <= ym.month0 < 12
  }

  /** Months counted from January of year 0, so that stepping is plain arithmetic. */
  function MonthIndex(ym: YearMonth): int {
    ym.year * 12 + ym.month0
  }

  /** Calendar.add(MONTH, 1): December rolls over into January of the next year. */
  function NextMonth(ym: YearMonth): (r: YearMonth)
    requires ValidMonth(ym)
    ensures ValidMonth(r) && MonthIndex(r) == MonthIndex(ym) + 1
  {
    if ym.month0 == 11 then YearMonth(ym.year + 1, 0) else YearMonth(ym.year, ym.month0 + 1)
  }

  /** Calendar.add(MONTH, -1): January rolls back into December of the previous year. */
  function PrevMonth(ym: YearMonth): (r: YearMonth)
    requires ValidMonth(ym)
    ensures ValidMonth(r) && MonthIndex(r) == MonthIndex(ym) - 1
  {
    if ym.month0 == 0 then YearMonth(ym.year - 1, 11) else YearMonth(ym.year, ym.month0 - 1)
  }

  /** A valid month is determined by its index. */
  lemma MonthIndexInjective(a: YearMonth, b: YearMonth)
    requires ValidMonth(a) && ValidMonth(b) && MonthIndex(a) == MonthIndex(b)
    ensures a == b
  {
  }

  /** Next after previous, and previous after next, come back to the same month. */
  lemma MonthStepsRoundTrip(ym: YearMonth)
    requires ValidMonth(ym)
    ensures NextMonth(PrevMonth(ym)) == ym && PrevMonth(NextMonth(ym)) == ym
  {
    MonthIndexInjective(NextMonth(PrevMonth(ym)), ym);
    MonthIndexInjective(PrevMonth(NextMonth(ym)), ym);
  }

  /** The day number of the 1st of the month. */
  function FirstOfMonth(ym: YearMonth): int
    requires ValidMonth(ym)
  {
    DaysFromCivil(ym.year, ym.month0 + 1, 1)
  }

  /** The "yyyy-MM" text the month report filters on. */
  function MonthPrefix(ym: YearMonth): string {
    MonthText(ym.year, ym.month0 + 1)
  }

  // ---------------------------------------------------------------- calendar grid

  const GRID_SIZE := 42

  /** The first cell of the grid: the 1st of the month moved back DAY_OF_WEEK - 1 days. */
  function GridStart(ym: YearMonth): int
    requires ValidMonth(ym)
  {
    FirstOfMonth(ym) - (DayOfWeek(FirstOfMonth(ym)) - 1)
  }

  /** Six weeks of consecutive days from GridStart. */
  function Grid(ym: YearMonth): (g: seq<int>)
    requires ValidMonth(ym)
    ensures |g| == GRID_SIZE
  {
    seq(GRID_SIZE, i => GridStart(ym) + i)
  }

  /** The grid starts on a Sunday, every column is one weekday (Sunday first), and consecutive
      cells are consecutive days. */
  lemma GridWeeks(ym: YearMonth)
    requires ValidMonth(ym)
    ensures DayOfWeek(Grid(ym)[0]) == SUNDAY
    ensures forall i :: 0 <= i < GRID_SIZE ==> DayOfWeek(Grid(ym)[i]) == i % 7 + 1
    ensures forall i :: 0 <= i < GRID_SIZE - 1 ==> Grid(ym)[i + 1] == Grid(ym)[i] + 1
  {
    WeekStartIsSunday(FirstOfMonth(ym));
    WeeksFrom(GridStart(ym));
  }

  /** The days from a Sunday on run through the weekdays in order. */
  lemma WeeksFrom(start: int)
    requires DayOfWeek(start) == SUNDAY
    ensures forall i :: 0 <= i < GRID_SIZE ==> DayOfWeek(start + i) == i % 7 + 1
  {
    forall i | 0 <= i < GRID_SIZE
      ensures DayOfWeek(start + i) == i % 7 + 1
    {
      DayOfWeekOffset(start, i);
    }
  }

  /** The 1st of the month sits at index DAY_OF_WEEK - 1, and every day of the month is in the
      grid, day d at index DAY_OF_WEEK - 1 + d - 1. */
  lemma GridCoversMonth(ym: YearMonth, d: int)
    requires ValidMonth(ym) && 1 <= d <= MonthLength(ym.year, ym.month0 + 1)
    ensures Grid(ym)[DayOfWeek(FirstOfMonth(ym)) - 1] == FirstOfMonth(ym)
    ensures DayOfWeek(FirstOfMonth(ym)) - 1 + d - 1 < GRID_SIZE
    ensures Grid(ym)[DayOfWeek(FirstOfMonth(ym)) - 1 + d - 1] == DaysFromCivil(ym.year, ym.month0 + 1, d)
  {
    DaysWithinMonth(ym.year, ym.month0 + 1, d);
  }

  /** Clicking the cell of day d of the shown month asks for the shifts of that date's
      "yyyy-MM-dd" text, which starts with the month's "yyyy-MM" report prefix. */
  lemma ClickedCellDate(ym: YearMonth, d: int)
    requires ValidMonth(ym) && 1 <= d <= MonthLength(ym.year, ym.month0 + 1)
    ensures var i := DayOfWeek(FirstOfMonth(ym)) - 1 + d - 1;
      && 0 <= i < GRID_SIZE
      && DayText(Grid(ym)[i]) == DateText(Civil(ym.year, ym.month0 + 1, d))
      && MonthPrefix(ym) <= DayText(Grid(ym)[i])
  {
    GridCoversMonth(ym, d);
    CivilRoundTrip(Civil(ym.year, ym.month0 + 1, d));
  }

  /** The calendar adapter: the list of dates the grid shows. */
  class CalendarAdapter {
    var dates: seq<int>

    /** The constructor fills the grid for the given month. */
    constructor (ym: YearMonth)
      requires ValidMonth(ym)
      ensures dates == Grid(ym)
    {
      dates := [];
      new;
      UpdateCalendar(ym);
    }

    /** updateCalendar: discard the old dates, go to the 1st, back up to the Sunday before it and
        add one day at a time until there are 42. */
    method UpdateCalendar(ym: YearMonth)
      requires ValidMonth(ym)
      modifies this
      ensures dates == Grid(ym)
    {
      dates := [];
      var temp := FirstOfMonth(ym);
      var firstDayOfWeek := DayOfWeek(temp) - 1;
      temp := temp - firstDayOfWeek;
      while |dates| < GRID_SIZE
        invariant |dates| <= GRID_SIZE
        invariant temp == GridStart(ym) + |dates|
        invariant forall k :: 0 <= k < |dates| ==> dates[k] == GridStart(ym) + k
      {
        dates := dates + [temp];
        temp := temp + 1;
      }
    }
  }

  // ---------------------------------------------------------------- filters and totals

  /** The filter condition `shift != null && shift.getFromDateTime().startsWith(prefix)`, on a
      child whose start is present. */
  predicate Keeps(c: Option<ShiftData>, prefix: string) {
    c.Some? && c.value.fromDateTime.Some? && prefix <= c.value.fromDateTime.value
  }

  /** A non-null child with a null start: startsWith throws a NullPointerException. */
  predicate NullStart(c: Option<ShiftData>) {
    c.Some? && c.value.fromDateTime.None?
  }

  /** The shifts a report keeps, in snapshot order. */
  function Kept(snapshot: seq<Option<ShiftData>>, prefix: string): (r: seq<ShiftData>)
    ensures |r| <= |snapshot|
  {
    if snapshot == [] then []
    else
      var c := snapshot[|snapshot| - 1];
      Kept(snapshot[..|snapshot| - 1], prefix) + (if Keeps(c, prefix) then [c.value] else [])
  }

  /** One more child of the snapshot adds at most that child to the kept shifts. */
  lemma KeptSnoc(snapshot: seq<Option<ShiftData>>, i: nat, prefix: string)
    requires i < |snapshot|
    ensures Kept(snapshot[..i + 1], prefix)
         == Kept(snapshot[..i], prefix) + (if Keeps(snapshot[i], prefix) then [snapshot[i].value] else [])
  {
    assert snapshot[..i + 1][..i] == snapshot[..i];
  }

  /** Filtering a concatenation filters the parts: the report keeps snapshot order. */
  lemma {:induction false} KeptAppend(a: seq<Option<ShiftData>>, b: seq<Option<ShiftData>>, prefix: string)
    ensures Kept(a + b, prefix) == Kept(a, prefix) + Kept(b, prefix)
    decreases |b|
  {
    if b == [] {
      assert a + b == a;
    } else {
      var b' := b[..|b| - 1];
      assert (a + b)[..|a + b| - 1] == a + b';
      KeptAppend(a, b', prefix);
    }
  }

  /** A shift is kept exactly when it is a non-null child whose start begins with the prefix. */
  lemma {:induction false} KeptMembers(snapshot: seq<Option<ShiftData>>, prefix: string, x: ShiftData)
    ensures x in Kept(snapshot, prefix) <==> Some(x) in snapshot && Keeps(Some(x), prefix)
  {
    if snapshot != [] {
      var init := snapshot[..|snapshot| - 1];
      assert snapshot == init + [snapshot[|snapshot| - 1]];
      KeptMembers(init, prefix, x);
    }
  }

  /** One shift's hours, calculateShiftHours: (to - from) milliseconds over 3,600,000. None
      stands for the exception parse throws on a null or malformed stamp. */
  function ShiftHours(s: ShiftData): (r: Option<real>)
    ensures r.Some? <==> s.fromDateTime.Some? && s.toDateTime.Some?
                          && IsStamp(s.fromDateTime.value) && IsStamp(s.toDateTime.value)
    ensures r.Some? ==> r.value * 3_600_000.0
                        == (Millis(ParseStamp(s.toDateTime.value).value)
                            - Millis(ParseStamp(s.fromDateTime.value).value)) as real
  {
    if s.fromDateTime.None? || s.toDateTime.None? then None
    else
      match (ParseStamp(s.fromDateTime.value), ParseStamp(s.toDateTime.value))
      case (Some(from), Some(to)) => Some((Millis(to) - Millis(from)) as real / 3_600_000.0)
      case _ => None
  }

  /** A shift that starts and ends at the same stamp contributes no hours. */
  lemma EqualStampsNoHours(s: ShiftData)
    requires s.fromDateTime.Some? && s.fromDateTime == s.toDateTime && IsStamp(s.fromDateTime.value)
    ensures ShiftHours(s) == Some(0.0)
  {
  }

  /** Two stamps on the same date: the hours are the clock difference, and they are negative
      exactly when the end's clock is earlier than the start's. */
  lemma {:induction false} SameDateHours(s: ShiftData)
    requires s.fromDateTime.Some? && s.toDateTime.Some?
    requires IsStamp(s.fromDateTime.value) && IsStamp(s.toDateTime.value)
    requires s.fromDateTime.value[..11] == s.toDateTime.value[..11]
    ensures ShiftHours(s).Some?
    ensures ShiftHours(s).value * 60.0
            == (ClockMinutes(s.toDateTime.value) - ClockMinutes(s.fromDateTime.value)) as real
    ensures ShiftHours(s).value < 0.0 <==> ClockMinutes(s.toDateTime.value) < ClockMinutes(s.fromDateTime.value)
  {
    SameDateDistance(s.fromDateTime.value, s.toDateTime.value);
  }

  /** The sum of the shifts' hours; None when one of them throws. */
  function HoursTotal(shifts: seq<ShiftData>): Option<real> {
    if shifts == [] then Some(0.0)
    else
      match (HoursTotal(shifts[..|shifts| - 1]), ShiftHours(shifts[|shifts| - 1]))
      case (Some(total), Some(h)) => Some(total + h)
      case _ => None
  }

  lemma HoursTotalSnoc(shifts: seq<ShiftData>, x: ShiftData, total: real)
    requires HoursTotal(shifts) == Some(total) && ShiftHours(x).Some?
    ensures HoursTotal(shifts + [x]) == Some(total + ShiftHours(x).value)
  {
    assert (shifts + [x])[..|shifts|] == shifts;
  }

  /** A non-null child the month loop throws on: a null start, or a kept shift whose hours
      cannot be computed. */
  predicate MonthCrashes(c: Option<ShiftData>, prefix: string) {
    NullStart(c) || (Keeps(c, prefix) && ShiftHours(c.value).None?)
  }

  /** What the month loop hands to the screen. */
  datatype MonthTotals = MonthTotals(shifts: seq<ShiftData>, totalEarnings: real, totalHours: real)

  /** The loop of fetchShiftsForDate's callback. */
  method ScanDay(snapshot: seq<Option<ShiftData>>, selectedDate: string) returns (r: Fetch<seq<ShiftData>>)
    ensures r.Crashed? <==> exists i :: 0 <= i < |snapshot| && NullStart(snapshot[i])
    ensures r.Fetched? ==> r.value == Kept(snapshot, selectedDate)
  {
    var shifts: seq<ShiftData> := [];
    var i := 0;
    while i < |snapshot|
      invariant 0 <= i <= |snapshot|
      invariant shifts == Kept(snapshot[..i], selectedDate)
      invariant forall j :: 0 <= j < i ==> !NullStart(snapshot[j])
    {
      var c := snapshot[i];
      if c.Some? {
        if c.value.fromDateTime.None? {
          return Crashed;
        }
        if selectedDate <= c.value.fromDateTime.value {
          shifts := shifts + [c.value];
        }
      }
      assert snapshot[..i + 1][..i] == snapshot[..i];
      i := i + 1;
    }
    assert snapshot[..i] == snapshot;
    return Fetched(shifts);
  }

  /** One child of fetchShiftsForMonth's loop: a throw, or the totals with the child added
      when it is kept. */
  method MonthChild(c: Option<ShiftData>, prefix: string, shifts: seq<ShiftData>, totalEarnings: real,
                    totalHours: real)
    returns (crashed: bool, shifts': seq<ShiftData>, totalEarnings': real, totalHours': real)
    requires totalEarnings == SumEarnings(shifts) && HoursTotal(shifts) == Some(totalHours)
    ensures crashed <==> MonthCrashes(c, prefix)
    ensures !crashed ==> && shifts' == shifts + (if Keeps(c, prefix) then [c.value] else [])
                         && totalEarnings' == SumEarnings(shifts') && HoursTotal(shifts') == Some(totalHours')
  {
    crashed, shifts', totalEarnings', totalHours' := false, shifts, totalEarnings, totalHours;
    if c.Some? {
      if c.value.fromDateTime.None? {
        return true, shifts, totalEarnings, totalHours;
      }
      if prefix <= c.value.fromDateTime.value {
        var hours := ShiftHours(c.value);
        if hours.None? {
          return true, shifts, totalEarnings, totalHours;
        }
        HoursTotalSnoc(shifts, c.value, totalHours);
        SumEarningsSnoc(shifts, c.value);
        shifts' := shifts + [c.value];
        totalEarnings' := totalEarnings + c.value.totalEarnings;
        totalHours' := totalHours + hours.value;
      }
    }
  }

  /** The loop of fetchShiftsForMonth's callback: keep, add up the stored earnings, add up the
      computed hours (a parse failure is rethrown). */
  method ScanMonth(snapshot: seq<Option<ShiftData>>, selectedMonthYear: string) returns (r: Fetch<MonthTotals>)
    ensures r.Crashed? <==> exists i :: 0 <= i < |snapshot| && MonthCrashes(snapshot[i], selectedMonthYear)
    ensures r.Fetched? ==> && r.value.shifts == Kept(snapshot, selectedMonthYear)
                           && r.value.totalEarnings == SumEarnings(r.value.shifts)
                           && HoursTotal(r.value.shifts) == Some(r.value.totalHours)
    ensures r.Fetched? && r.value.shifts == [] ==> r.value.totalEarnings == 0.0 && r.value.totalHours == 0.0
  {
    var shifts: seq<ShiftData> := [];
    var totalEarnings := 0.0;
    var totalHours := 0.0;
    var i := 0;
    while i < |snapshot|
      invariant 0 <= i <= |snapshot|
      invariant shifts == Kept(snapshot[..i], selectedMonthYear)
      invariant totalEarnings == SumEarnings(shifts)
      invariant HoursTotal(shifts) == Some(totalHours)
      invariant forall j :: 0 <= j < i ==> !MonthCrashes(snapshot[j], selectedMonthYear)
    {
      var crashed;
      crashed, shifts, totalEarnings, totalHours :=
        MonthChild(snapshot[i], selectedMonthYear, shifts, totalEarnings, totalHours);
      if crashed {
        return Crashed;
      }
      KeptSnoc(snapshot, i, selectedMonthYear);
      i := i + 1;
    }
    assert snapshot[..i] == snapshot;
    return Fetched(MonthTotals(shifts, totalEarnings, totalHours));
  }

  /** A shift in the report of a day is in the report of that day's month, and when the day
      report throws, so does the month report. */
  lemma DayInMonth(snapshot: seq<Option<ShiftData>>, day: int, x: ShiftData)
    ensures var c := CivilFromDays(day);
      x in Kept(snapshot, DayText(day)) ==> x in Kept(snapshot, MonthText(c.year, c.month))
    ensures forall i :: 0 <= i < |snapshot| && NullStart(snapshot[i]) ==>
              MonthCrashes(snapshot[i], MonthText(CivilFromDays(day).year, CivilFromDays(day).month))
  {
    var c := CivilFromDays(day);
    KeptMembers(snapshot, DayText(day), x);
    KeptMembers(snapshot, MonthText(c.year, c.month), x);
  }

  // ---------------------------------------------------------------- the screen

  /** The list under the calendar. */
  class ShiftsAdapter {
    var shifts: seq<ShiftData>

    constructor (shifts: seq<ShiftData>)
      ensures this.shifts == shifts
    {
      this.shifts := shifts;
    }

    /** getItemCount. */
    function ItemCount(): nat
      reads this
    {
      |shifts|
    }

    /** updateShifts: clear, then add all of newShifts. */
    method UpdateShifts(newShifts: seq<ShiftData>)
      modifies this
      ensures shifts == newShifts && ItemCount() == |newShifts|
    {
      shifts := [];
      shifts := shifts + newShifts;
    }
  }

  const USER_NOT_LOGGED_IN := "User not logged in"

  /** What a report request shows: the lists and totals, a toast, or an exception that ends
      the application. */
  datatype Outcome = Shown | Toast(message: string) | Crash

  class MonthlyReportScreen {
    var current: YearMonth
    var monthEarnings: real
    var monthHours: real
    const calendarAdapter: CalendarAdapter
    const shiftsAdapter: ShiftsAdapter

    predicate Valid()
      reads this
    {
      ValidMonth(current)
    }

    /** onCreateView: an empty list and the grid of the current month. */
    constructor (today: YearMonth)
      requires ValidMonth(today)
      ensures Valid() && current == today
      ensures calendarAdapter.dates == Grid(today) && shiftsAdapter.shifts == []
      ensures fresh(calendarAdapter) && fresh(shiftsAdapter)
    {
      current := today;
      monthEarnings, monthHours := 0.0, 0.0;
      shiftsAdapter := new ShiftsAdapter([]);
      calendarAdapter := new CalendarAdapter(today);
    }

    /** The previous-month button. */
    method OnPrevMonth()
      requires Valid()
      modifies this, calendarAdapter
      ensures Valid() && current == PrevMonth(old(current)) && calendarAdapter.dates == Grid(current)
      ensures monthEarnings == old(monthEarnings) && monthHours == old(monthHours)
    {
      current := PrevMonth(current);
      calendarAdapter.UpdateCalendar(current);
    }

    /** The next-month button. */
    method OnNextMonth()
      requires Valid()
      modifies this, calendarAdapter
      ensures Valid() && current == NextMonth(old(current)) && calendarAdapter.dates == Grid(current)
      ensures monthEarnings == old(monthEarnings) && monthHours == old(monthHours)
    {
      current := NextMonth(current);
      calendarAdapter.UpdateCalendar(current);
    }

    /** A click on a grid date: fetchShiftsForDate, given the children the query returned. */
    method OnDateClick(day: int, signedIn: bool, snapshot: seq<Option<ShiftData>>) returns (r: Outcome)
      modifies shiftsAdapter
      ensures !signedIn ==> r == Toast(USER_NOT_LOGGED_IN)
      ensures signedIn ==> (r == Crash <==> exists i :: 0 <= i < |snapshot| && NullStart(snapshot[i]))
      ensures signedIn && r != Crash ==> r == Shown
      ensures r == Shown ==> shiftsAdapter.shifts == Kept(snapshot, DayText(day))
      ensures r != Shown ==> shiftsAdapter.shifts == old(shiftsAdapter.shifts)
      ensures r == Shown || r == Crash || r == Toast(USER_NOT_LOGGED_IN)
    {
      if !signedIn {
        return Toast(USER_NOT_LOGGED_IN);
      }
      var selectedDate := DayText(day);
      var scanned := ScanDay(snapshot, selectedDate);
      if scanned.Crashed? {
        return Crash;
      }
      shiftsAdapter.UpdateShifts(scanned.value);
      return Shown;
    }

    /** The monthly report button: fetchShiftsForMonth of the current month. */
    method OnMonthlyReport(signedIn: bool, snapshot: seq<Option<ShiftData>>) returns (r: Outcome)
      modifies this, shiftsAdapter
      ensures current == old(current)
      ensures !signedIn ==> r == Toast(USER_NOT_LOGGED_IN)
      ensures signedIn ==> (r == Crash <==>
                exists i :: 0 <= i < |snapshot| && MonthCrashes(snapshot[i], MonthPrefix(current)))
      ensures signedIn && r != Crash ==> r == Shown
      ensures r == Shown ==> && shiftsAdapter.shifts == Kept(snapshot, MonthPrefix(current))
                             && monthEarnings == SumEarnings(shiftsAdapter.shifts)
                             && HoursTotal(shiftsAdapter.shifts) == Some(monthHours)
      ensures r != Shown ==> && shiftsAdapter.shifts == old(shiftsAdapter.shifts)
                             && monthEarnings == old(monthEarnings) && monthHours == old(monthHours)
      ensures r == Shown || r == Crash || r == Toast(USER_NOT_LOGGED_IN)
    {
      if !signedIn {
        return Toast(USER_NOT_LOGGED_IN);
      }
      var selectedMonthYear := MonthPrefix(current);
      var scanned := ScanMonth(snapshot, selectedMonthYear);
      if scanned.Crashed? {
        return Crash;
      }
      shiftsAdapter.UpdateShifts(scanned.value.shifts);
      monthEarnings := scanned.value.totalEarnings;
      monthHours := scanned.value.totalHours;
      return Shown;
    }
  }
}
