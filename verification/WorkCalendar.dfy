/** Instants, local days and the walk back over work days that fixes how recent
    an earlier kill may be (cal/cal.go, mysql/mysql.go noKillsSince).

    An instant is a whole number of seconds since 1970-01-01 00:00 UTC and a local day
    is a day number, 1970-01-01 being day 0. A time zone says which local day an instant
    falls on and at which instant a local day begins; its days may have any length. */
module WorkCalendar {

  const HOUR := 3_600
  const DAY := 86_400

  /** changeHour(d) is the hour shown by the clock when it is changed on day d; on a day
      without a clock change it has no effect. */
  datatype Zone = Zone(dayOf: int -> int, startOf: int -> int, changeHour: int -> int)

  function Length(z: Zone, d: int): int {
    z.startOf(d + 1) - z.startOf(d)
  }

  /** Days follow each other and the two functions of a zone describe the same days. */
  ghost predicate Consistent(z: Zone) {
    && (forall d: int {:trigger Length(z, d)} :: 0 < Length(z, d))
    && (forall t: int :: z.startOf(z.dayOf(t)) <= t < z.startOf(z.dayOf(t) + 1))
  }

  /** Monday is 0 and Sunday is 6; day 0 was a Thursday. */
  function Weekday(d: int): (w: int)
    ensures 0 <= w < 7
  {
    (d + 3) % 7
  }

  predicate IsWorkday(d: int) {
    Weekday(d) < 5
  }

  /** The time from one day to the Saturday after it, when that day is a Monday. */
  function WorkWeek(z: Zone, monday: int): int {
    z.startOf(monday + 5) - z.startOf(monday)
  }

  /** The five work days of every week last at least 24 hours together, so a walk in
      strides of 24 hours cannot miss a whole work week. */
  ghost predicate Sane(z: Zone) {
    && Consistent(z)
    && (forall d: int {:trigger WorkWeek(z, d)} :: Weekday(d) == 0 ==> DAY <= WorkWeek(z, d))
  }

  /** The instant at which the clock shows `hour` on day d. */
  function At(z: Zone, d: int, hour: int): int {
    if hour < z.changeHour(d)
    then z.startOf(d) + hour * HOUR
    else z.startOf(d + 1) - (24 - hour) * HOUR
  }

  /** The hours of a day follow each other at 3600 seconds, but where the clock is changed: there the
      day gets what it lasts more than 24 hours. The first and the last hour are the ends of the day. */
  lemma HourByHour(z: Zone, d: int, hour: int)
    ensures 0 < z.changeHour(d) ==> At(z, d, 0) == z.startOf(d)
    ensures z.changeHour(d) <= 24 ==> At(z, d, 24) == z.startOf(d + 1)
    ensures At(z, d, hour + 1) - At(z, d, hour) == 3_600 + if hour + 1 == z.changeHour(d) then Length(z, d) - 86_400 else 0
  {
  }

  lemma {:induction false} DaysInOrder(z: Zone, a: int, b: int)
    requires Consistent(z)
    ensures a <= b ==> z.startOf(a) <= z.startOf(b)
    ensures a < b ==> z.startOf(a) < z.startOf(b)
    decreases b - a
  {
    if a < b {
      DaysInOrder(z, a, b - 1);
      assert 0 < Length(z, b - 1);
    }
  }

  lemma DayBetween(z: Zone, lo: int, hi: int, t: int)
    requires Consistent(z) && z.startOf(lo) <= t < z.startOf(hi)
    ensures lo <= z.dayOf(t) < hi
  {
    DaysInOrder(z, z.dayOf(t) + 1, lo);
    DaysInOrder(z, hi, z.dayOf(t));
  }

  lemma DayMonotone(z: Zone, t: int, u: int)
    requires Consistent(z) && t <= u
    ensures z.dayOf(t) <= z.dayOf(u)
  {
    DaysInOrder(z, z.dayOf(u) + 1, z.dayOf(t));
  }

  // ---------------------------------------------------------------- the 24-hour walk

  /** One stride back from a weekend stays in that weekend or lands in the work week before it. */
  lemma StrideFromWeekend(z: Zone, t: int)
    requires Sane(z) && !IsWorkday(z.dayOf(t))
    ensures var d, e := z.dayOf(t), z.dayOf(t - DAY);
            var saturday := d - (Weekday(d) - 5);
            z.startOf(saturday) <= t && saturday - 5 <= e <= d
  {
    var d := z.dayOf(t);
    var saturday := d - (Weekday(d) - 5);
    assert DAY <= WorkWeek(z, saturday - 5);
    DaysInOrder(z, saturday, d);
    DayBetween(z, saturday - 5, d + 1, t - DAY);
  }

  function Idle(z: Zone, t: int): (r: nat)
    requires Sane(z)
  {
    var d := z.dayOf(t);
    if IsWorkday(d) then 0
    else
      StrideFromWeekend(z, t);
      1 + t - z.startOf(d - (Weekday(d) - 5))
  }

  /** The day on which the walk of noKillsSince stops. Terminates because a stride either
      uses up one of the n days or brings the walk closer to the Friday before a weekend. */
  function Walk(z: Zone, n: nat, t: int): int
    requires Sane(z)
    decreases n, Idle(z, t)
  {
    if !IsWorkday(z.dayOf(t)) then
      StrideFromWeekend(z, t);
      Walk(z, n, t - DAY)
    else if n == 0 then z.dayOf(t)
    else Walk(z, n - 1, t - DAY)
  }

  /** The same walk over calendar days. */
  function CalendarWalk(n: nat, d: int): int
    decreases n, Weekday(d)
  {
    if !IsWorkday(d) then CalendarWalk(n, d - 1)
    else if n == 0 then d
    else CalendarWalk(n - 1, d - 1)
  }

  /** The last work day on or before d. */
  function LastWorkday(d: int): int {
    if Weekday(d) < 5 then d else d - (Weekday(d) - 4)
  }

  lemma CalendarWalkFromFriday(n: nat, d: int)
    ensures IsWorkday(LastWorkday(d)) && CalendarWalk(n, d) == CalendarWalk(n, LastWorkday(d))
  {
    if Weekday(d) == 6 {
      assert Weekday(d - 1) == 5 && Weekday(d - 2) == 4;
    } else if Weekday(d) == 5 {
      assert Weekday(d - 1) == 4;
    }
  }

  /** Every work day lasts 24 hours: clocks change on Saturdays and Sundays only. */
  ghost predicate WorkdaysLast24Hours(z: Zone) {
    forall d: int {:trigger Length(z, d)} :: IsWorkday(d) ==> Length(z, d) == DAY
  }

  ghost predicate WalksAgree(z: Zone)
    requires Sane(z)
  {
    forall n: nat, t: int :: Walk(z, n, t) == CalendarWalk(n, z.dayOf(t))
  }

  /** The last work day before d and its neighbours in the week. */
  lemma WorkdayBefore(d: int)
    ensures var f := LastWorkday(d - 1);
            && IsWorkday(f) && f < d
            && (f == d - 1 || (Weekday(f) == 4 && d - 3 <= f && LastWorkday(f + 1) == f && LastWorkday(f + 2) == f))
    ensures !IsWorkday(d) ==> LastWorkday(d - 1) == LastWorkday(d)
    ensures LastWorkday(d) == if IsWorkday(d) then d else LastWorkday(d - 1)
  {
  }

  /** On 24-hour work days a stride lands on the last work day before, or on the weekend after it. */
  lemma StrideLandsOnPreviousDay(z: Zone, t: int)
    requires Consistent(z) && WorkdaysLast24Hours(z)
    ensures LastWorkday(z.dayOf(t - DAY)) == LastWorkday(z.dayOf(t) - 1)
  {
    var d := z.dayOf(t);
    var f := LastWorkday(d - 1);
    WorkdayBefore(d);
    StrideLandsBetween(z, t, d, f);
  }

  lemma StrideLandsBetween(z: Zone, t: int, d: int, f: int)
    requires Consistent(z) && WorkdaysLast24Hours(z)
    requires d == z.dayOf(t) && f < d && IsWorkday(f)
    ensures f <= z.dayOf(t - DAY) < if IsWorkday(d) then d else d + 1
  {
    assert Length(z, f) == DAY;
    DaysInOrder(z, f + 1, d);
    assert IsWorkday(d) ==> Length(z, d) == DAY;
    DayBetween(z, f, if IsWorkday(d) then d else d + 1, t - DAY);
  }

  lemma CalendarWalkDependsOnWorkday(n: nat, d: int, e: int)
    requires LastWorkday(d) == LastWorkday(e)
    ensures CalendarWalk(n, d) == CalendarWalk(n, e)
  {
    CalendarWalkFromFriday(n, d);
    CalendarWalkFromFriday(n, e);
  }

  lemma {:induction false} WalkIsCalendarWalk(z: Zone, n: nat, t: int)
    requires Sane(z) && WorkdaysLast24Hours(z)
    ensures Walk(z, n, t) == CalendarWalk(n, z.dayOf(t))
    decreases n, Idle(z, t)
  {
    var d := z.dayOf(t);
    StrideLandsOnPreviousDay(z, t);
    if !IsWorkday(d) {
      StrideFromWeekend(z, t);
      WalkIsCalendarWalk(z, n, t - DAY);
      CalendarWalkDependsOnWorkday(n, z.dayOf(t - DAY), d - 1);
    } else if n > 0 {
      WalkIsCalendarWalk(z, n - 1, t - DAY);
      CalendarWalkDependsOnWorkday(n - 1, z.dayOf(t - DAY), d - 1);
    }
  }

  lemma {:induction false} WalkGoesBack(z: Zone, n: nat, t: int)
    requires Sane(z)
    ensures Walk(z, n, t) <= z.dayOf(t) && IsWorkday(Walk(z, n, t))
    decreases n, Idle(z, t)
  {
    DayMonotone(z, t - DAY, t);
    if !IsWorkday(z.dayOf(t)) {
      StrideFromWeekend(z, t);
      WalkGoesBack(z, n, t - DAY);
    } else if n > 0 {
      WalkGoesBack(z, n - 1, t - DAY);
    }
  }

  /** A work day of another length is counted twice or skipped. */
  lemma OtherLengthDisagrees(z: Zone, d: int)
    requires Sane(z) && IsWorkday(d) && Length(z, d) != DAY
    ensures exists n: nat, t: int :: Walk(z, n, t) != CalendarWalk(n, z.dayOf(t))
  {
    if Length(z, d) > DAY {
      var t := z.startOf(d) + DAY;
      DayBetween(z, d, d + 1, t);
      DayBetween(z, d, d + 1, t - DAY);
      assert Walk(z, 1, t) == Walk(z, 0, t - DAY) == d;
      CountBack(1, d);
      assert CalendarWalk(1, z.dayOf(t)) != d;
    } else {
      var t := z.startOf(d + 1);
      assert 0 < Length(z, d + 1);
      DayBetween(z, d + 1, d + 2, t);
      DaysInOrder(z, d, z.dayOf(t - DAY));
      WalkGoesBack(z, 0, t - DAY);
      assert CalendarWalk(0, d) == d;
      var n := if IsWorkday(d + 1) then 1 else 0;
      assert Walk(z, n, t) == Walk(z, 0, t - DAY);
      assert CalendarWalk(n, d + 1) == CalendarWalk(0, d);
    }
  }

  /** The 24-hour walk finds the calendar's day for every time and every count exactly
      when every work day lasts 24 hours, whatever Saturdays and Sundays last. */
  lemma WalksAgreeIff(z: Zone)
    requires Sane(z)
    ensures WalksAgree(z) <==> WorkdaysLast24Hours(z)
  {
    if WorkdaysLast24Hours(z) {
      forall n: nat, t: int ensures Walk(z, n, t) == CalendarWalk(n, z.dayOf(t)) {
        WalkIsCalendarWalk(z, n, t);
      }
    } else {
      var d :| IsWorkday(d) && Length(z, d) != DAY;
      OtherLengthDisagrees(z, d);
    }
  }

  // ---------------------------------------------------------------- counting work days

  /** How many work days there are in (a, b]. */
  function WorkDays(a: int, b: int): nat
    decreases b - a
  {
    if b <= a then 0 else WorkDays(a, b - 1) + if IsWorkday(b) then 1 else 0
  }

  lemma {:induction false} WorkDaysSplit(a: int, b: int, c: int)
    requires a <= b <= c
    ensures WorkDays(a, c) == WorkDays(a, b) + WorkDays(b, c)
    decreases c - b
  {
    if b < c { WorkDaysSplit(a, b, c - 1); }
  }

  /** A later work day leaves strictly fewer work days up to c. */
  lemma LaterWorkdayLeavesFewer(a: int, b: int, c: int)
    requires a < b <= c && IsWorkday(b)
    ensures WorkDays(b, c) < WorkDays(a, c)
  {
    WorkDaysSplit(a, b, c);
  }

  /** The walk stops on the work day that has exactly n work days after it. */
  lemma {:induction false} CountBack(n: nat, today: int)
    ensures var d := CalendarWalk(n, today);
            d <= today && IsWorkday(d) && WorkDays(d, today) == n
            && (n > 0 ==> d < today)
    decreases n, Weekday(today)
  {
    if !IsWorkday(today) {
      CountBack(n, today - 1);
    } else if n > 0 {
      CountBack(n - 1, today - 1);
    }
  }

  lemma CountBackUnique(n: nat, today: int, d: int)
    requires d <= today && IsWorkday(d) && WorkDays(d, today) == n
    ensures d == CalendarWalk(n, today)
  {
    CountBack(n, today);
    var e := CalendarWalk(n, today);
    if d < e {
      LaterWorkdayLeavesFewer(d, e, today);
    } else if e < d {
      LaterWorkdayLeavesFewer(e, d, today);
    }
  }

  lemma WorkdayBeforeWorkday(f: int)
    requires IsWorkday(f)
    ensures Weekday(f) > 0 ==> LastWorkday(f - 1) == f - 1 && Weekday(f - 1) == Weekday(f) - 1
    ensures Weekday(f) == 0 ==> LastWorkday(f - 1) == f - 3 && Weekday(f - 3) == 4
  {
  }

  /** Going back n work days from a work day with weekday w passes (n + 4 - w) div 5 weekends. */
  lemma {:induction false} ClosedFormOnWorkday(n: nat, f: int)
    requires IsWorkday(f)
    ensures CalendarWalk(n, f) == f - n - 2 * ((n + 4 - Weekday(f)) / 5)
    decreases n
  {
    if n > 0 {
      WorkdayBeforeWorkday(f);
      var before := LastWorkday(f - 1);
      CalendarWalkFromFriday(n - 1, f - 1);
      ClosedFormOnWorkday(n - 1, before);
    }
  }

  lemma ClosedForm(n: nat, today: int)
    ensures var f := LastWorkday(today);
            CalendarWalk(n, today) == f - n - 2 * ((n + 4 - Weekday(f)) / 5)
  {
    CalendarWalkFromFriday(n, today);
    ClosedFormOnWorkday(n, LastWorkday(today));
  }

  /** The 24-hour walk meets the same description on zones whose clocks change at weekends only. */
  lemma WalkSpecification(z: Zone, n: nat, now: int)
    requires Sane(z) && WorkdaysLast24Hours(z)
    ensures var d, today := Walk(z, n, now), z.dayOf(now);
            && d <= today && IsWorkday(d) && WorkDays(d, today) == n
            && (forall e: int :: e <= today && IsWorkday(e) && WorkDays(e, today) == n ==> e == d)
            && (var f := LastWorkday(today); d == f - n - 2 * ((n + 4 - Weekday(f)) / 5))
  {
    var today := z.dayOf(now);
    WalkIsCalendarWalk(z, n, now);
    CountBack(n, today);
    ClosedForm(n, today);
    forall e: int | e <= today && IsWorkday(e) && WorkDays(e, today) == n ensures e == Walk(z, n, now) {
      CountBackUnique(n, today, e);
    }
  }

  // ---------------------------------------------------------------- the threshold

  /** A negative number of days is refused, otherwise the end of the working hours on the
      day where the walk stops. */
  datatype Threshold = Since(instant: int) | IllegalDays(days: int)

  function NoKillsSince(days: int, now: int, endHour: int, z: Zone): Threshold
    requires Sane(z)
  {
    if days < 0 then IllegalDays(days) else Since(At(z, Walk(z, days, now), endHour))
  }

  lemma AtOnWorkday(z: Zone, d: int, hour: int)
    requires WorkdaysLast24Hours(z) && IsWorkday(d)
    ensures At(z, d, hour) == z.startOf(d) + hour * HOUR
  {
    assert Length(z, d) == DAY;
  }

  lemma AtOrdersWorkdays(z: Zone, d: int, e: int, hour: int)
    requires Consistent(z) && WorkdaysLast24Hours(z) && IsWorkday(d) && IsWorkday(e) && d < e
    ensures At(z, d, hour) < At(z, e, hour)
  {
    DaysInOrder(z, d, e);
    AtOnWorkday(z, d, hour);
    AtOnWorkday(z, e, hour);
  }

  /** More days give a strictly earlier threshold. */
  lemma ThresholdAntitone(z: Zone, m: nat, n: nat, now: int, endHour: int)
    requires Sane(z) && WorkdaysLast24Hours(z) && m < n
    ensures NoKillsSince(n, now, endHour, z).instant < NoKillsSince(m, now, endHour, z).instant
  {
    var today := z.dayOf(now);
    WalkIsCalendarWalk(z, m, now);
    WalkIsCalendarWalk(z, n, now);
    CountBack(m, today);
    CountBack(n, today);
    var d, e := CalendarWalk(n, today), CalendarWalk(m, today);
    if e < d { LaterWorkdayLeavesFewer(e, d, today); }
    AtOrdersWorkdays(z, d, e, endHour);
  }

  /** On every zone the walk for more days stops on the same or an earlier day. */
  lemma {:induction false} WalkAntitone(z: Zone, m: nat, n: nat, t: int)
    requires Sane(z) && m <= n
    ensures Walk(z, n, t) <= Walk(z, m, t)
    decreases m, Idle(z, t)
  {
    if !IsWorkday(z.dayOf(t)) {
      StrideFromWeekend(z, t);
      WalkAntitone(z, m, n, t - DAY);
    } else if m == 0 {
      WalkGoesBack(z, n, t);
    } else {
      WalkAntitone(z, m - 1, n - 1, t - DAY);
    }
  }

  /** The clock shows the hour between the two ends of each work day. */
  ghost predicate IsHourOfWorkdays(z: Zone, hour: int) {
    forall d: int :: IsWorkday(d) ==> z.startOf(d) <= At(z, d, hour) <= z.startOf(d + 1)
  }

  lemma HourOfLaterWorkday(z: Zone, d: int, e: int, hour: int)
    requires Consistent(z) && IsHourOfWorkdays(z, hour) && IsWorkday(d) && IsWorkday(e) && d <= e
    ensures At(z, d, hour) <= At(z, e, hour)
  {
    if d < e {
      assert 0 < Length(z, d) && 0 < Length(z, e);
      DaysInOrder(z, d + 1, e);
    }
  }

  /** Whenever clocks change, more days never give a later threshold. */
  lemma ThresholdNeverLater(z: Zone, m: nat, n: nat, now: int, endHour: int)
    requires Sane(z) && (WorkdaysLast24Hours(z) || IsHourOfWorkdays(z, endHour)) && m <= n
    ensures NoKillsSince(n, now, endHour, z).instant <= NoKillsSince(m, now, endHour, z).instant
  {
    if WorkdaysLast24Hours(z) {
      if m < n { ThresholdAntitone(z, m, n, now, endHour); }
    } else {
      WalkAntitone(z, m, n, now);
      WalkGoesBack(z, m, now);
      WalkGoesBack(z, n, now);
      HourOfLaterWorkday(z, Walk(z, n, now), Walk(z, m, now), endHour);
    }
  }

  /** A later time gives the same or a later threshold. */
  lemma ThresholdMonotone(z: Zone, n: nat, t: int, u: int, endHour: int)
    requires Sane(z) && WorkdaysLast24Hours(z) && t <= u
    ensures NoKillsSince(n, t, endHour, z).instant <= NoKillsSince(n, u, endHour, z).instant
  {
    DayMonotone(z, t, u);
    WalkIsCalendarWalk(z, n, t);
    WalkIsCalendarWalk(z, n, u);
    CountBack(n, z.dayOf(t));
    CountBack(n, z.dayOf(u));
    var d, e := CalendarWalk(n, z.dayOf(t)), CalendarWalk(n, z.dayOf(u));
    if e < d {
      LaterWorkdayLeavesFewer(e, d, z.dayOf(t));
      WorkDaysSplit(e, z.dayOf(t), z.dayOf(u));
    } else if d < e {
      AtOrdersWorkdays(z, d, e, endHour);
    }
  }

  /** Killed on a weekend, or at or after the end of the working hours of a work day. */
  predicate AfterHours(z: Zone, t: int, endHour: int) {
    !IsWorkday(z.dayOf(t)) || At(z, z.dayOf(t), endHour) <= t
  }

  /** The threshold is at or before an instant exactly when fewer than n work days separate
      its date from today, an after-hours instant being counted as one work day later. */
  lemma ReachesThresholdIff(z: Zone, n: nat, killedAt: int, now: int, endHour: int)
    requires Sane(z) && WorkdaysLast24Hours(z) && 0 <= endHour <= 24
    requires z.dayOf(killedAt) <= z.dayOf(now)
    ensures NoKillsSince(n, now, endHour, z).instant <= killedAt
       <==> var between := WorkDays(z.dayOf(killedAt), z.dayOf(now));
            between < n || (between == n && AfterHours(z, killedAt, endHour))
  {
    var e, today := z.dayOf(killedAt), z.dayOf(now);
    WalkIsCalendarWalk(z, n, now);
    CountBack(n, today);
    var d := CalendarWalk(n, today);
    AtOnWorkday(z, d, endHour);
    assert Length(z, d) == DAY;
    DaysInOrder(z, e + 1, d);
    DaysInOrder(z, d + 1, e);
    if e < d {
      LaterWorkdayLeavesFewer(e, d, today);
    } else if d < e {
      WorkDaysSplit(d, e, today);
      if IsWorkday(e) { LaterWorkdayLeavesFewer(d, e, today); }
    }
  }

  /** An instant on a later date than today is always at or after the threshold. */
  lemma FutureReachesThreshold(z: Zone, n: nat, killedAt: int, now: int, endHour: int)
    requires Sane(z) && WorkdaysLast24Hours(z) && 0 <= endHour <= 24
    requires z.dayOf(now) < z.dayOf(killedAt)
    ensures NoKillsSince(n, now, endHour, z).instant <= killedAt
  {
    WalkIsCalendarWalk(z, n, now);
    CountBack(n, z.dayOf(now));
    var d, e := CalendarWalk(n, z.dayOf(now)), z.dayOf(killedAt);
    AtOnWorkday(z, d, endHour);
    assert Length(z, d) == DAY;
    DaysInOrder(z, d + 1, e);
  }

  // ---------------------------------------------------------------- zones

  /** A zone that never changes its clock, `offset` seconds ahead of UTC. */
  function FixedZone(offset: int): Zone {
    Zone(t => (t + offset) / DAY, d => d * DAY - offset, d => 0)
  }

  lemma FixedZoneIsRegular(offset: int)
    ensures Sane(FixedZone(offset)) && WorkdaysLast24Hours(FixedZone(offset))
  {
  }

  /** Day k lasts 25 hours, its clock being put back at 2 o'clock, and every other day 24. */
  function LongDayZone(k: int): Zone {
    Zone(t => if t < (k + 1) * DAY then t / DAY else if t < (k + 1) * DAY + HOUR then k else (t - HOUR) / DAY,
         d => if d <= k then d * DAY else d * DAY + HOUR,
         d => 2)
  }

  lemma LongDayIsRegularIff(k: int)
    ensures var z := LongDayZone(k);
            Sane(z) && Length(z, k) == DAY + HOUR && (WorkdaysLast24Hours(z) <==> !IsWorkday(k))
  {
    assert Length(LongDayZone(k), k) == DAY + HOUR;
  }

  /** Late in the evening of a 25-hour work day, one work day back is still that same day. */
  lemma ClockChangeOnWorkdayCountsItTwice(k: int)
    requires IsWorkday(k)
    ensures var z, lateEvening := LongDayZone(k), (k + 1) * DAY + HOUR / 2;
            Sane(z) && z.dayOf(lateEvening) == k && Walk(z, 1, lateEvening) == k && CalendarWalk(1, k) < k
  {
    LongDayIsRegularIff(k);
    var z, t := LongDayZone(k), (k + 1) * DAY + HOUR / 2;
    assert z.dayOf(t - DAY) == k;
    assert Walk(z, 1, t) == Walk(z, 0, t - DAY);
    CountBack(1, k);
  }

  lemma LongDayKeepsHours(k: int, hour: int)
    requires 0 <= hour <= 24
    ensures Sane(LongDayZone(k)) && IsHourOfWorkdays(LongDayZone(k), hour)
  {
    LongDayIsRegularIff(k);
    var z := LongDayZone(k);
    forall d: int | IsWorkday(d) ensures z.startOf(d) <= At(z, d, hour) <= z.startOf(d + 1) {
      HourOfLongDay(k, d, hour);
    }
  }

  lemma HourOfLongDay(k: int, d: int, hour: int)
    requires 0 <= hour <= 24
    ensures var z := LongDayZone(k); z.startOf(d) <= At(z, d, hour) <= z.startOf(d + 1)
  {
    var z := LongDayZone(k);
    assert z.startOf(d) == if d <= k then d * DAY else d * DAY + HOUR;
    assert z.startOf(d + 1) == if d < k then d * DAY + DAY else d * DAY + DAY + HOUR;
    assert z.changeHour(d) == 2;
  }

  /** Monday to Friday are work days in every week, and 16 December 2015 was a Wednesday. */
  lemma FiveWorkdaysAWeek(d: int)
    ensures IsWorkday(d) <==> Weekday(d) in {0, 1, 2, 3, 4}
    ensures IsWorkday(d) <==> IsWorkday(d + 7)
    ensures WorkDays(d, d + 7) == 5
    ensures Weekday(16_785) == 2
  {
    WeekSums(d);
  }

  lemma NextDay(d: int, n: nat)
    ensures Weekday(d + n + 1) == if Weekday(d + n) == 6 then 0 else Weekday(d + n) + 1
    ensures WorkDays(d, d + n + 1) == WorkDays(d, d + n) + if IsWorkday(d + n + 1) then 1 else 0
  {
  }

  lemma WeekSums(d: int)
    ensures WorkDays(d, d + 7) == 5
  {
    NextDay(d, 0);
    NextDay(d, 1);
    NextDay(d, 2);
    NextDay(d, 3);
    NextDay(d, 4);
    NextDay(d, 5);
    NextDay(d, 6);
  }

  /** Thursday 17 December 2015 at 15:18:30, eight hours west of UTC, with working hours up to 15:00:
      the thresholds for no, one, four and nine days are on that Thursday, on Wednesday, on Friday
      six days and on Friday thirteen days before it. */
  lemma SomeThresholds(z: Zone, thursday: int, now: int, days: nat, back: int)
    requires z == FixedZone(-8 * 3_600) && thursday == 16_786 && now == 1_450_339_200 + 55_110
    requires (days, back) in {(0, 0), (1, 1), (4, 6), (9, 13)}
    ensures Sane(z) && Weekday(thursday) == 3 && z.startOf(thursday) == 1_450_339_200
    ensures NoKillsSince(days, now, 15, z) == Since(1_450_339_200 - back * 86_400 + 54_000)
  {
    FixedZoneIsRegular(-8 * HOUR);
    ThresholdOfWorkday(z, days, thursday, now, 15);
  }

  lemma ThresholdOfWorkday(z: Zone, n: nat, today: int, now: int, endHour: int)
    requires Sane(z) && WorkdaysLast24Hours(z) && z.dayOf(now) == today && IsWorkday(today)
    ensures NoKillsSince(n, now, endHour, z) == Since(z.startOf(today - n - 2 * ((n + 4 - Weekday(today)) / 5)) + endHour * HOUR)
  {
    WalkSpecification(z, n, now);
    AtOnWorkday(z, Walk(z, n, now), endHour);
  }
}
