/** Calendar arithmetic and the two text formats the application stores and filters on:
    "yyyy-MM-dd HH:mm" for shift stamps, "yyyy-MM-dd" and "yyyy-MM" for report prefixes.
    A date is an integer day number (day 0 is 1 January 1970) in the proleptic Gregorian
    calendar; an instant is a number of minutes since the start of day 0. */
module Dates {
  import opened Wrappers
  import opened Text

  // ---------------------------------------------------------------- weekdays

  /** Calendar.DAY_OF_WEEK numbers the days Sunday = 1, Monday = 2, ..., Saturday = 7. */
  const SUNDAY: int := 1

  /** The weekday of a day number; day 0, 1 January 1970, was a Thursday (5). */
  function DayOfWeek(day: int): (w: int)
    ensures 1 <= w <= 7
  {
    (day + 4) % 7 + 1
  }

  /** The weekday after a Saturday is a Sunday, and otherwise the next number. */
  lemma NextDayOfWeek(day: int)
    ensures DayOfWeek(day + 1) == DayOfWeek(day) % 7 + 1
  {
    var q := (day + 4) / 7;
    assert day + 4 == 7 * q + (day + 4) % 7;
  }

  /** Stepping back DayOfWeek(day) - 1 days lands on a Sunday. */
  lemma {:induction false} WeekStartIsSunday(day: int)
    ensures DayOfWeek(day - (DayOfWeek(day) - 1)) == SUNDAY
  {
    var r := (day + 4) % 7;
    var q := (day + 4) / 7;
    assert day + 4 == 7 * q + r;
    assert day - r + 4 == 7 * q;
  }

  /** Seven days later is the same weekday, k days later is k weekdays further round. */
  lemma {:induction false} DayOfWeekOffset(sunday: int, k: int)
    requires DayOfWeek(sunday) == SUNDAY && 0 <= k
    ensures DayOfWeek(sunday + k) == k % 7 + 1
  {
    var q := (sunday + 4) / 7;
    assert sunday + 4 == 7 * q;
    var q' := k / 7;
    assert k == 7 * q' + k % 7;
    assert sunday + k + 4 == 7 * (q + q') + k % 7;
  }

  // ---------------------------------------------------------------- civil dates

  predicate IsLeapYear(y: int) {
    y % 4 == 0 && (y % 100 != 0 || y % 400 == 0)
  }

  /** The number of days in month m (1 to 12) of year y. */
  function MonthLength(y: int, m: int): (n: int)
    requires 1 <= m <= 12
    ensures 28 <= n <= 31
  {
    if m == 2 then (if IsLeapYear(y) then 29 else 28)
    else if m == 4 || m == 6 || m == 9 || m == 11 then 30
    else 31
  }

  /** The number of days in year y. */
  function YearLength(y: int): int {
    if IsLeapYear(y) then 366 else 365
  }

  /** The day number of 1 January of year y. */
  function YearStart(y: int): int
    decreases if y < 1970 then 1970 - y else y - 1970
  {
    if y == 1970 then 0
    else if y > 1970 then YearStart(y - 1) + YearLength(y - 1)
    else YearStart(y + 1) - YearLength(y)
  }

  /** The day number of the 1st of month m (1 to 12) of year y. */
  function MonthStart(y: int, m: int): int
    requires 1 <= m <= 12
  {
    if m == 1 then YearStart(y) else MonthStart(y, m - 1) + MonthLength(y, m - 1)
  }

  /** The day number of day d of month m (1 to 12) of year y; d counts from 1 and may run past the
      end of the month, which moves into the following days. */
  function DaysFromCivil(y: int, m: int, d: int): int
    requires 1 <= m <= 12
  {
    MonthStart(y, m) + d - 1
  }

  /** The days of a month are consecutive day numbers counted from its 1st. */
  lemma DaysWithinMonth(y: int, m: int, d: int)
    requires 1 <= m <= 12
    ensures DaysFromCivil(y, m, d) == DaysFromCivil(y, m, 1) + (d - 1)
  {
  }

  /** Day 0 is 1 January 1970. */
  lemma EpochIsDayZero()
    ensures DaysFromCivil(1970, 1, 1) == 0
  {
  }

  /** Each year starts where the previous one ends. */
  lemma YearStep(y: int)
    ensures YearStart(y + 1) == YearStart(y) + YearLength(y)
  {
    if y < 1970 {
      assert YearStart(y) == YearStart(y + 1) - YearLength(y);
    }
  }

  /** A later year starts no earlier than the end of an earlier one. */
  lemma {:induction false} YearStartMonotone(y1: int, y2: int)
    requires y1 < y2
    ensures YearStart(y1) + YearLength(y1) <= YearStart(y2)
    decreases y2 - y1
  {
    YearStep(y1);
    if y1 + 1 < y2 {
      YearStartMonotone(y1 + 1, y2);
    }
  }

  /** A day number lies in at most one year. */
  lemma YearUnique(n: int, y1: int, y2: int)
    requires YearStart(y1) <= n < YearStart(y1) + YearLength(y1)
    requires YearStart(y2) <= n < YearStart(y2) + YearLength(y2)
    ensures y1 == y2
  {
    if y1 < y2 {
      YearStartMonotone(y1, y2);
    } else if y2 < y1 {
      YearStartMonotone(y2, y1);
    }
  }

  /** The year of day number n, searched for upwards from year y. */
  function YearUp(n: int, y: int): (r: int)
    requires YearStart(y) <= n
    ensures YearStart(r) <= n < YearStart(r) + YearLength(r)
    decreases n - YearStart(y)
  {
    YearStep(y);
    if n < YearStart(y) + YearLength(y) then y else YearUp(n, y + 1)
  }

  /** The year of day number n, searched for downwards from year y. */
  function YearDown(n: int, y: int): (r: int)
    requires n < YearStart(y) + YearLength(y)
    ensures YearStart(r) <= n < YearStart(r) + YearLength(r)
    decreases if n < YearStart(y) then YearStart(y) - n else 0
  {
    if YearStart(y) <= n then y
    else
      YearStep(y - 1);
      YearDown(n, y - 1)
  }

  /** The year day number n falls in. */
  function YearOf(n: int): (r: int)
    ensures YearStart(r) <= n < YearStart(r) + YearLength(r)
  {
    if n >= 0 then YearUp(n, 1970)
    else
      YearStep(1969);
      YearDown(n, 1969)
  }

  /** The twelve months fill the year. */
  lemma MonthsFillYear(y: int)
    ensures MonthStart(y, 12) + MonthLength(y, 12) == YearStart(y) + YearLength(y)
  {
    var f := if IsLeapYear(y) then 29 else 28;
    var s := YearStart(y);
    assert MonthStart(y, 2) == s + 31;
    assert MonthStart(y, 3) == s + 31 + f;
    assert MonthStart(y, 4) == s + 62 + f;
    assert MonthStart(y, 5) == s + 92 + f;
    assert MonthStart(y, 6) == s + 123 + f;
    assert MonthStart(y, 7) == s + 153 + f;
    assert MonthStart(y, 8) == s + 184 + f;
    assert MonthStart(y, 9) == s + 215 + f;
    assert MonthStart(y, 10) == s + 245 + f;
    assert MonthStart(y, 11) == s + 276 + f;
    assert MonthStart(y, 12) == s + 306 + f;
  }

  /** A later month of the same year starts no earlier than the end of an earlier one. */
  lemma {:induction false} MonthStartMonotone(y: int, m1: int, m2: int)
    requires 1 <= m1 < m2 <= 12
    ensures MonthStart(y, m1) + MonthLength(y, m1) <= MonthStart(y, m2)
    decreases m2 - m1
  {
    if m1 + 1 < m2 {
      MonthStartMonotone(y, m1 + 1, m2);
    }
  }

  /** The months of a year run from its start to its end. */
  lemma MonthInYear(y: int, m: int)
    requires 1 <= m <= 12
    ensures YearStart(y) <= MonthStart(y, m)
    ensures MonthStart(y, m) + MonthLength(y, m) <= YearStart(y) + YearLength(y)
  {
    MonthsFillYear(y);
    if m > 1 {
      MonthStartMonotone(y, 1, m);
    }
    if m < 12 {
      MonthStartMonotone(y, m, 12);
    }
  }

  /** The month of year y day number n falls in, searched for upwards from month m. */
  function MonthUp(n: int, y: int, m: int): (r: int)
    requires 1 <= m <= 12 && MonthStart(y, m) <= n < YearStart(y) + YearLength(y)
    ensures m <= r <= 12 && MonthStart(y, r) <= n < MonthStart(y, r) + MonthLength(y, r)
    decreases 12 - m
  {
    if m == 12 then
      MonthsFillYear(y);
      12
    else if n < MonthStart(y, m + 1) then m
    else MonthUp(n, y, m + 1)
  }

  /** One calendar date: year, month from 1 to 12, day of month from 1. */
  datatype Civil = Civil(year: int, month: int, day: int)

  /** The date has a month of the year and a day of that month. */
  predicate ValidCivil(c: Civil) {
    1 <= c.month <= 12 && 1 <= c.day <= MonthLength(c.year, c.month)
  }

  /** The calendar date of a day number: a valid date whose day number is n. */
  function CivilFromDays(n: int): (c: Civil)
    ensures ValidCivil(c)
    ensures DaysFromCivil(c.year, c.month, c.day) == n
  {
    var y := YearOf(n);
    var m := MonthUp(n, y, 1);
    Civil(y, m, n - MonthStart(y, m) + 1)
  }

  /** CivilFromDays inverts DaysFromCivil on valid dates, so the two are a bijection between
      valid dates and day numbers. */
  lemma CivilRoundTrip(c: Civil)
    requires ValidCivil(c)
    ensures CivilFromDays(DaysFromCivil(c.year, c.month, c.day)) == c
  {
    var n := DaysFromCivil(c.year, c.month, c.day);
    var r := CivilFromDays(n);
    MonthInYear(c.year, c.month);
    YearUnique(n, c.year, r.year);
    if c.month < r.month {
      MonthStartMonotone(c.year, c.month, r.month);
    } else if r.month < c.month {
      MonthStartMonotone(c.year, r.month, c.month);
    }
  }

  // ---------------------------------------------------------------- text formats

  /** A calendar field printed with at least width digits; negative values, which the calendar
      fields never take, keep their sign in front. */
  function Field(n: int, width: nat): string {
    if n >= 0 then ZeroPad(n, width) else "-" + ZeroPad(-n, width)
  }

  /** "yyyy" prints the year of the era: years before 1 count backwards from 1 BC. */
  function YearText(y: int): string {
    ZeroPad(if y >= 1 then y else 1 - y, 4)
  }

  /** The "yyyy-MM" text of month m (1 to 12) of year y. */
  function MonthText(y: int, m: int): string {
    YearText(y) + "-" + Field(m, 2)
  }

  /** The "yyyy-MM-dd" text of a calendar date. */
  function DateText(c: Civil): string {
    MonthText(c.year, c.month) + "-" + Field(c.day, 2)
  }

  /** The "yyyy-MM-dd" text of a day number. */
  function DayText(n: int): (r: string)
    ensures MonthText(CivilFromDays(n).year, CivilFromDays(n).month) <= r
  {
    DateText(CivilFromDays(n))
  }

  /** The "HH:mm" text of a time of day. */
  function ClockText(hour: int, minute: int): string {
    Field(hour, 2) + ":" + Field(minute, 2)
  }

  /** The "yyyy-MM-dd HH:mm" text of a picked date and time. */
  function StampText(c: Civil, hour: int, minute: int): string {
    DateText(c) + " " + ClockText(hour, minute)
  }

  /** The instant, in minutes, of the given calendar fields. As a lenient Calendar does, a month
      outside 1 to 12 moves into a neighbouring year and a day, hour or minute outside its range
      moves into the neighbouring days, hours or minutes. */
  function StampMinutes(y: int, m: int, d: int, hour: int, minute: int): int
    decreases if m < 1 then 13 - m else m
  {
    if m > 12 then StampMinutes(y + 1, m - 12, d, hour, minute)
    else if m < 1 then StampMinutes(y - 1, m + 12, d, hour, minute)
    else DaysFromCivil(y, m, d) * 1440 + hour * 60 + minute
  }

  /** The hour and minute add to the instant of midnight of the day. */
  lemma {:induction false} StampMinutesClock(y: int, m: int, d: int, hour: int, minute: int)
    ensures StampMinutes(y, m, d, hour, minute) == StampMinutes(y, m, d, 0, 0) + hour * 60 + minute
    decreases if m < 1 then 13 - m else m
  {
    if m > 12 {
      StampMinutesClock(y + 1, m - 12, d, hour, minute);
    } else if m < 1 {
      StampMinutesClock(y - 1, m + 12, d, hour, minute);
    }
  }

  /** s starts with "dddd-dd-dd dd:dd". */
  predicate IsStamp(s: string) {
    && |s| >= 16
    && IsDigit(s[0]) && IsDigit(s[1]) && IsDigit(s[2]) && IsDigit(s[3]) && s[4] == '-'
    && IsDigit(s[5]) && IsDigit(s[6]) && s[7] == '-' && IsDigit(s[8]) && IsDigit(s[9])
    && s[10] == ' ' && IsDigit(s[11]) && IsDigit(s[12]) && s[13] == ':'
    && IsDigit(s[14]) && IsDigit(s[15])
  }

  /** The value of the two digits at s[i] and s[i + 1]. */
  function Digits2(s: string, i: nat): nat
    requires i + 2 <= |s| && IsDigit(s[i]) && IsDigit(s[i + 1])
  {
    DigitValue(s[i]) * 10 + DigitValue(s[i + 1])
  }

  /** The year of a stamp, its first four digits. */
  function StampYear(s: string): nat
    requires IsStamp(s)
  {
    Digits2(s, 0) * 100 + Digits2(s, 2)
  }

  /** The minutes of the clock part "HH:mm" of a stamp. */
  function ClockMinutes(s: string): int
    requires IsStamp(s)
  {
    Digits2(s, 11) * 60 + Digits2(s, 14)
  }

  /** SimpleDateFormat("yyyy-MM-dd HH:mm").parse on the fixed-width form; None stands for the
      ParseException it throws. Text after the 16th character is ignored, as parse does. */
  function ParseStamp(s: string): (r: Option<int>)
    ensures r.Some? <==> IsStamp(s)
  {
    if IsStamp(s) then
      Some(StampMinutes(StampYear(s), Digits2(s, 5), Digits2(s, 8), Digits2(s, 11), Digits2(s, 14)))
    else None
  }

  /** Date.getTime of an instant: milliseconds. */
  function Millis(minutes: int): int {
    minutes * 60_000
  }

  /** Two stamps with the same "yyyy-MM-dd " lie on the same day, so their distance is the distance
      of their clock parts, whatever the calendar. */
  lemma SameDateDistance(s: string, t: string)
    requires IsStamp(s) && IsStamp(t) && s[..11] == t[..11]
    ensures ParseStamp(t).value - ParseStamp(s).value == ClockMinutes(t) - ClockMinutes(s)
  {
    assert forall k :: 0 <= k < 11 ==> s[k] == s[..11][k] == t[..11][k] == t[k];
    StampMinutesClock(StampYear(s), Digits2(s, 5), Digits2(s, 8), Digits2(s, 11), Digits2(s, 14));
    StampMinutesClock(StampYear(t), Digits2(t, 5), Digits2(t, 8), Digits2(t, 11), Digits2(t, 14));
  }

  /** A picked date and time is printed so that parsing reads back the same instant. */
  lemma {:induction false} StampRoundTrip(c: Civil, hour: int, minute: int)
    requires 1 <= c.year <= 9999 && 1 <= c.month <= 12 && 0 <= c.day < 100
    requires 0 <= hour < 100 && 0 <= minute < 100
    ensures IsStamp(StampText(c, hour, minute))
    ensures ParseStamp(StampText(c, hour, minute)) == Some(StampMinutes(c.year, c.month, c.day, hour, minute))
    ensures ClockMinutes(StampText(c, hour, minute)) == hour * 60 + minute
    ensures |DateText(c)| == 10 && StampText(c, hour, minute)[..10] == DateText(c)
  {
    var yt, mt, dt := ZeroPad(c.year, 4), ZeroPad(c.month, 2), ZeroPad(c.day, 2);
    var ht, nt := ZeroPad(hour, 2), ZeroPad(minute, 2);
    assert Pow10(2) == 100 && Pow10(4) == 10000;
    ZeroPadRoundTrip(c.year, 4);
    ZeroPadRoundTrip(c.month, 2);
    ZeroPadRoundTrip(c.day, 2);
    ZeroPadRoundTrip(hour, 2);
    ZeroPadRoundTrip(minute, 2);
    assert DateText(c) == yt + "-" + mt + "-" + dt;
    assert StampText(c, hour, minute) == yt + "-" + mt + "-" + dt + " " + ht + ":" + nt;
    StampLayout(yt, mt, dt, ht, nt);
  }

  /** Where the fields of a "yyyy-MM-dd HH:mm" text sit, and what they read as. */
  lemma {:induction false} StampLayout(yt: string, mt: string, dt: string, ht: string, nt: string)
    requires |yt| == 4 && |mt| == 2 && |dt| == 2 && |ht| == 2 && |nt| == 2
    requires AllDigits(yt) && AllDigits(mt) && AllDigits(dt) && AllDigits(ht) && AllDigits(nt)
    ensures var s := yt + "-" + mt + "-" + dt + " " + ht + ":" + nt;
      && IsStamp(s) && s[..10] == yt + "-" + mt + "-" + dt
      && StampYear(s) == DigitsValue(yt) && Digits2(s, 5) == DigitsValue(mt)
      && Digits2(s, 8) == DigitsValue(dt) && Digits2(s, 11) == DigitsValue(ht)
      && Digits2(s, 14) == DigitsValue(nt)
  {
    var s := yt + "-" + mt + "-" + dt + " " + ht + ":" + nt;
    assert s[0..4] == yt && s[5..7] == mt && s[8..10] == dt && s[11..13] == ht && s[14..16] == nt;
    assert s[..10] == yt + "-" + mt + "-" + dt;
    FourDigits(yt);
    TwoDigits(mt);
    TwoDigits(dt);
    TwoDigits(ht);
    TwoDigits(nt);
  }

  lemma {:induction false} TwoDigits(t: string)
    requires |t| == 2 && AllDigits(t)
    ensures DigitsValue(t) == Digits2(t, 0)
  {
    OneDigit(t[..1]);
    assert DigitsValue(t) == DigitsValue(t[..1]) * 10 + DigitValue(t[1]);
  }

  lemma {:induction false} OneDigit(t: string)
    requires |t| == 1 && AllDigits(t)
    ensures DigitsValue(t) == DigitValue(t[0])
  {
    assert t[..0] == [];
  }

  lemma {:induction false} FourDigits(t: string)
    requires |t| == 4 && AllDigits(t)
    ensures DigitsValue(t) == Digits2(t, 0) * 100 + Digits2(t, 2)
  {
    var t3, t2 := t[..3], t[..2];
    assert t3[..2] == t2;
    TwoDigits(t2);
    assert DigitsValue(t3) == DigitsValue(t2) * 10 + DigitValue(t[2]);
    assert DigitsValue(t) == DigitsValue(t3) * 10 + DigitValue(t[3]);
  }
}
