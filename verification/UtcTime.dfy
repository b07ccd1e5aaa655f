/** The UTC fields of an instant that a crontab line shows (schedule/schedule.go:214-225). */
module UtcTime {
  import opened WorkCalendar

  const MINUTE := 60

  predicate IsLeap(year: int) {
    year % 4 == 0 && (year % 100 != 0 || year % 400 == 0)
  }

  function LeapYearsBefore(year: int): int {
    (year - 1) / 4 - (year - 1) / 100 + (year - 1) / 400
  }

  /** The day number of January 1st. */
  function YearStart(year: int): int {
    365 * (year - 1970) + LeapYearsBefore(year) - LeapYearsBefore(1970)
  }

  lemma YearsFollow(year: int)
    ensures YearStart(year + 1) == YearStart(year) + if IsLeap(year) then 366 else 365
  {
    OneMoreMultiple(year, 4);
    OneMoreMultiple(year, 100);
    OneMoreMultiple(year, 400);
    MultiplesNest(year);
  }

  lemma MultiplesNest(year: int)
    ensures year % 400 == 0 ==> year % 100 == 0
    ensures year % 100 == 0 ==> year % 4 == 0
  {
  }

  lemma OneMoreMultiple(n: int, k: int)
    requires k == 4 || k == 100 || k == 400
    ensures n / k == (n - 1) / k + if n % k == 0 then 1 else 0
  {
  }

  /** The year of a day, sought from a given year on. */
  function YearFrom(year: int, d: int): (y: int)
    ensures YearStart(y) <= d < YearStart(y + 1)
    decreases Distance(year, d)
  {
    if d < YearStart(year) then
      YearBeforeIsCloser(year, d);
      YearFrom(year - 1, d)
    else if YearStart(year + 1) <= d then
      YearAfterIsCloser(year, d);
      YearFrom(year + 1, d)
    else year
  }

  function Distance(year: int, d: int): nat {
    if d < YearStart(year) then YearStart(year) - d
    else if YearStart(year + 1) <= d then d - YearStart(year)
    else 0
  }

  lemma YearBeforeIsCloser(year: int, d: int)
    requires d < YearStart(year)
    ensures Distance(year - 1, d) < Distance(year, d)
  {
    YearsFollow(year - 1);
  }

  lemma YearAfterIsCloser(year: int, d: int)
    requires YearStart(year + 1) <= d
    ensures Distance(year + 1, d) < Distance(year, d)
  {
    YearsFollow(year);
  }

  function YearOf(t: int): int {
    YearFrom(1970, t / DAY)
  }

  /** The first day of a month, counted from January 1st; month 13 starts when the year ends. */
  function MonthStart(month: int, leap: bool): int
    requires 1 <= month <= 13
  {
    var table := [0, 31, 59, 90, 120, 151, 181, 212, 243, 273, 304, 334, 365];
    table[month - 1] + if leap && month > 2 then 1 else 0
  }

  function MonthFrom(month: int, leap: bool, dayOfYear: int): (m: int)
    requires 1 <= month <= 12 && MonthStart(month, leap) <= dayOfYear < MonthStart(13, leap)
    ensures month <= m <= 12 && MonthStart(m, leap) <= dayOfYear < MonthStart(m + 1, leap)
    decreases 12 - month
  {
    if dayOfYear < MonthStart(month + 1, leap) then month else MonthFrom(month + 1, leap, dayOfYear)
  }

  function DayOfYear(t: int): (n: int)
    ensures 0 <= n < MonthStart(13, IsLeap(YearOf(t)))
  {
    YearsFollow(YearOf(t));
    t / DAY - YearStart(YearOf(t))
  }

  function Month(t: int): (m: int)
    ensures 1 <= m <= 12
  {
    MonthFrom(1, IsLeap(YearOf(t)), DayOfYear(t))
  }

  function Day(t: int): (d: int)
    ensures 1 <= d <= 31
  {
    var leap := IsLeap(YearOf(t));
    MonthsAreShort(Month(t), leap);
    DayOfYear(t) - MonthStart(Month(t), leap) + 1
  }

  /** Thirty days have April, June, September and November, February has 28 or 29 and the others 31. */
  lemma MonthLengths(month: int, leap: bool)
    requires 1 <= month <= 12
    ensures MonthStart(1, leap) == 0
    ensures MonthStart(month + 1, leap) - MonthStart(month, leap)
         == if month in {4, 6, 9, 11} then 30 else if month == 2 then (if leap then 29 else 28) else 31
  {
  }

  /** The calendar is Gregorian: a leap year is a multiple of four but not of a hundred, or of four
      hundred; 1970 starts on day 0, years follow each other, and 400 years have 146097 days. */
  lemma CalendarIsGregorian(year: int)
    ensures IsLeap(year) <==> (exists k :: year == 4 * k) && ((exists k :: year == 100 * k) ==> (exists k :: year == 400 * k))
    ensures YearStart(1970) == 0
    ensures YearStart(year + 1) - YearStart(year) == if IsLeap(year) then 366 else 365
    ensures YearStart(year + 400) - YearStart(year) == 146_097
  {
    YearsFollow(year);
    MultipleIff(year, 4);
    MultipleIff(year, 100);
    MultipleIff(year, 400);
  }

  lemma MultipleIff(n: int, k: int)
    requires k == 4 || k == 100 || k == 400
    ensures n % k == 0 <==> exists q :: n == k * q
  {
    if n % k == 0 { assert n == k * (n / k); }
  }

  lemma MonthsAreShort(month: int, leap: bool)
    requires 1 <= month <= 12
    ensures 28 <= MonthStart(month + 1, leap) - MonthStart(month, leap) <= 31
  {
  }

  function Hour(t: int): (h: int)
    ensures 0 <= h < 24
  {
    t % DAY / HOUR
  }

  function Minute(t: int): (m: int)
    ensures 0 <= m < 60
  {
    t % HOUR / MINUTE
  }

  /** Sunday is 0. */
  function DayOfWeek(t: int): (w: int)
    ensures 0 <= w < 7
  {
    (Weekday(t / DAY) + 1) % 7
  }

  /** Sunday is 0 and every other day is numbered after the one before it; 1970-01-01 was a Thursday
      and 16 December 2015, 16785 days later, a Wednesday. */
  lemma DaysOfWeek(t: int)
    ensures DayOfWeek(t) == if Weekday(t / DAY) == 6 then 0 else Weekday(t / DAY) + 1
    ensures DayOfWeek(t + 86_400) == if DayOfWeek(t) == 6 then 0 else DayOfWeek(t) + 1
    ensures DayOfWeek(0) == 4 && DayOfWeek(1_450_224_000) == 3
  {
    assert (t + 86_400) / DAY == t / DAY + 1;
  }

  predicate IsDate(year: int, month: int, day: int) {
    1 <= month <= 12 && 1 <= day <= MonthStart(month + 1, IsLeap(year)) - MonthStart(month, IsLeap(year))
  }

  /** The instant at which a UTC clock and calendar show the fields. */
  function InstantOf(year: int, month: int, day: int, hour: int, minute: int): int
    requires 1 <= month <= 12
  {
    (YearStart(year) + MonthStart(month, IsLeap(year)) + day - 1) * DAY + hour * HOUR + minute * MINUTE
  }

  /** Within a year the fields of an instant give it back exactly when it is a whole minute. */
  lemma FieldsGiveInstantIff(t: int)
    ensures InstantOf(YearOf(t), Month(t), Day(t), Hour(t), Minute(t)) == t <==> t % MINUTE == 0
    ensures IsDate(YearOf(t), Month(t), Day(t))
  {
    assert t == t / DAY * DAY + t % DAY;
    assert t % DAY == Hour(t) * HOUR + t % DAY % HOUR;
    RemainderOfRemainder(t);
  }

  /** The instants of one minute share their fields. */
  lemma SameMinute(t: int)
    ensures InstantOf(YearOf(t), Month(t), Day(t), Hour(t), Minute(t)) == t - t % MINUTE
    ensures DayOfWeek(t - t % MINUTE) == DayOfWeek(t)
  {
    assert t == t / DAY * DAY + t % DAY;
    assert t % DAY == Hour(t) * HOUR + t % DAY % HOUR;
    RemainderOfRemainder(t);
    QuotientAndRest(t - t % MINUTE, t / DAY, Hour(t) * HOUR + Minute(t) * MINUTE, DAY);
  }

  lemma RemainderOfRemainder(t: int)
    ensures t % DAY % HOUR == t % HOUR && t % HOUR % MINUTE == t % MINUTE
    ensures t % HOUR == Minute(t) * MINUTE + t % MINUTE
  {
    assert t == 24 * (t / DAY) * HOUR + t % DAY;
    assert t == 60 * (t / HOUR) * MINUTE + t % HOUR;
  }

  /** Two whole minutes of one year with the same fields are the same instant. */
  lemma FieldsDetermineInstant(t: int, u: int)
    requires t % MINUTE == 0 && u % MINUTE == 0 && YearOf(t) == YearOf(u)
    requires Month(t) == Month(u) && Day(t) == Day(u) && Hour(t) == Hour(u) && Minute(t) == Minute(u)
    ensures t == u
  {
    FieldsGiveInstantIff(t);
    FieldsGiveInstantIff(u);
  }

  lemma {:induction false} YearsInOrder(a: int, b: int)
    requires a <= b
    ensures YearStart(a) + 365 * (b - a) <= YearStart(b)
    decreases b - a
  {
    if a < b {
      YearsFollow(b - 1);
      YearsInOrder(a, b - 1);
    }
  }

  /** There is only one year, and one month, to which a day can belong. */
  lemma YearIsUnique(t: int, year: int)
    requires YearStart(year) <= t / DAY < YearStart(year + 1)
    ensures YearOf(t) == year
  {
    if year < YearOf(t) { YearsInOrder(year + 1, YearOf(t)); }
    if YearOf(t) < year { YearsInOrder(YearOf(t) + 1, year); }
  }

  lemma {:induction false} MonthsInOrder(a: int, b: int, leap: bool)
    requires 1 <= a <= b <= 13
    ensures MonthStart(a, leap) <= MonthStart(b, leap)
    decreases b - a
  {
    if a < b { MonthsInOrder(a, b - 1, leap); }
  }

  lemma MonthIsUnique(t: int, month: int)
    requires 1 <= month <= 12
    requires MonthStart(month, IsLeap(YearOf(t))) <= DayOfYear(t) < MonthStart(month + 1, IsLeap(YearOf(t)))
    ensures Month(t) == month
  {
    var leap := IsLeap(YearOf(t));
    if month < Month(t) { MonthsInOrder(month + 1, Month(t), leap); }
    if Month(t) < month { MonthsInOrder(Month(t) + 1, month, leap); }
  }

  /** Every date and clock time is shown by the instant that is made from it. */
  lemma InstantShowsFields(year: int, month: int, day: int, hour: int, minute: int)
    requires IsDate(year, month, day) && 0 <= hour < 24 && 0 <= minute < 60
    ensures var t := InstantOf(year, month, day, hour, minute);
            YearOf(t) == year && Month(t) == month && Day(t) == day && Hour(t) == hour && Minute(t) == minute
  {
    var leap := IsLeap(year);
    var t := InstantOf(year, month, day, hour, minute);
    var d := YearStart(year) + MonthStart(month, leap) + day - 1;
    var s := hour * HOUR + minute * MINUTE;
    assert t == d * DAY + s && 0 <= s < DAY;
    QuotientAndRest(t, d, s, DAY);
    QuotientAndRest(s, hour, minute * MINUTE, HOUR);
    MonthsInOrder(1, month, leap);
    MonthsInOrder(month + 1, 13, leap);
    YearsFollow(year);
    YearIsUnique(t, year);
    MonthIsUnique(t, month);
    RemainderOfRemainder(t);
    QuotientAndRest(minute * MINUTE, minute, 0, MINUTE);
  }

  lemma QuotientAndRest(t: int, q: int, r: int, k: int)
    requires k == DAY || k == HOUR || k == MINUTE
    requires t == q * k + r && 0 <= r < k
    ensures t / k == q && t % k == r
  {
    if k == DAY {
      assert t == q * DAY + r;
    } else if k == HOUR {
      assert t == q * HOUR + r;
    } else {
      assert t == q * MINUTE + r;
    }
  }
}
