/** Whether a later time ever gives an earlier day (mysql/mysql.go:407-427). */
module WalkOrder {
  import opened WorkCalendar

  /** Every work day lasts a whole number of times 24 hours. */
  ghost predicate WorkdaysLastWholeDays(z: Zone) {
    forall d: int {:trigger Length(z, d)} :: IsWorkday(d) ==> Length(z, d) % DAY == 0
  }

  ghost predicate WalkIsMonotone(z: Zone)
    requires Sane(z)
  {
    forall n: nat, t: int, u: int :: t <= u ==> Walk(z, n, t) <= Walk(z, n, u)
  }

  /** The Saturday of the weekend in which d is. */
  function SaturdayOf(d: int): int {
    d - (Weekday(d) - 5)
  }

  // ---------------------------------------------------------------- slots of 24 hours

  /** The start of the stretch of 24 hours in which t is, counted from the start of its work day; a
      weekend belongs to the last stretch before it. */
  function Slot(z: Zone, t: int): int {
    var d := z.dayOf(t);
    if IsWorkday(d) then t - (t - z.startOf(d)) % DAY else z.startOf(SaturdayOf(d)) - DAY
  }

  lemma FitsBefore(x: int, length: int)
    requires 0 <= x < length && length % DAY == 0
    ensures 0 <= x - x % DAY && x - x % DAY + DAY <= length
  {
    assert x == x / DAY * DAY + x % DAY && length == length / DAY * DAY;
  }

  lemma SlotOfWorkday(z: Zone, t: int)
    requires Sane(z) && WorkdaysLastWholeDays(z) && IsWorkday(z.dayOf(t))
    ensures var d, b := z.dayOf(t), Slot(z, t);
            z.startOf(d) <= b <= t < b + DAY <= z.startOf(d + 1) && z.dayOf(b) == d
  {
    var d := z.dayOf(t);
    FitsBefore(t - z.startOf(d), Length(z, d));
    DayBetween(z, d, d + 1, Slot(z, t));
  }

  /** All instants of a stretch of a work day have that stretch. */
  lemma SameSlot(z: Zone, d: int, b: int, x: int)
    requires Sane(z) && IsWorkday(d) && z.startOf(d) <= b <= x < b + DAY <= z.startOf(d + 1)
    requires (b - z.startOf(d)) % DAY == 0
    ensures Slot(z, x) == b
  {
    DayBetween(z, d, d + 1, x);
    SameRest(x - z.startOf(d), b - z.startOf(d));
  }

  lemma SameRest(x: int, b: int)
    requires b <= x < b + DAY && b % DAY == 0
    ensures x - x % DAY == b
  {
    assert x == x / DAY * DAY + x % DAY && b == b / DAY * DAY;
  }

  lemma LastSlot(z: Zone, d: int, x: int)
    requires Sane(z) && WorkdaysLastWholeDays(z) && IsWorkday(d)
    requires z.startOf(d + 1) - DAY <= x < z.startOf(d + 1)
    ensures z.startOf(d) <= z.startOf(d + 1) - DAY && Slot(z, x) == z.startOf(d + 1) - DAY
  {
    assert 0 < Length(z, d) && Length(z, d) % DAY == 0;
    assert Length(z, d) == Length(z, d) / DAY * DAY;
    SameSlot(z, d, z.startOf(d + 1) - DAY, x);
  }

  lemma SlotOfWeekend(z: Zone, t: int)
    requires Sane(z) && WorkdaysLastWholeDays(z) && !IsWorkday(z.dayOf(t))
    ensures var saturday := SaturdayOf(z.dayOf(t));
            && z.startOf(saturday) <= t < z.startOf(saturday + 2)
            && Weekday(saturday) == 5 && IsWorkday(saturday - 1)
            && z.startOf(saturday - 1) <= Slot(z, t) == z.startOf(saturday) - DAY
  {
    var d := z.dayOf(t);
    DaysInOrder(z, SaturdayOf(d), d);
    DaysInOrder(z, d + 1, SaturdayOf(d) + 2);
    LastSlot(z, SaturdayOf(d) - 1, z.startOf(SaturdayOf(d)) - DAY);
  }

  lemma SlotIsEarlier(z: Zone, t: int)
    requires Sane(z) && WorkdaysLastWholeDays(z)
    ensures Slot(z, t) <= t
  {
    if IsWorkday(z.dayOf(t)) { SlotOfWorkday(z, t); } else { SlotOfWeekend(z, t); }
  }

  lemma SlotMonotone(z: Zone, t: int, u: int)
    requires Sane(z) && WorkdaysLastWholeDays(z) && t <= u
    ensures Slot(z, t) <= Slot(z, u)
  {
    var d, e := z.dayOf(t), z.dayOf(u);
    DayMonotone(z, t, u);
    if IsWorkday(e) {
      SlotOfWorkday(z, u);
      if d == e {
        SlotInDay(z, t, u);
      } else {
        SlotIsEarlier(z, t);
        DaysInOrder(z, d + 1, e);
      }
    } else {
      SlotBeforeWeekend(z, t, u);
    }
  }

  lemma SlotInDay(z: Zone, t: int, u: int)
    requires t <= u && z.dayOf(t) == z.dayOf(u) && IsWorkday(z.dayOf(u))
    ensures Slot(z, t) <= Slot(z, u)
  {
    var x, y := t - z.startOf(z.dayOf(t)), u - z.startOf(z.dayOf(t));
    assert x == x / DAY * DAY + x % DAY && y == y / DAY * DAY + y % DAY;
  }

  lemma SlotBeforeWeekend(z: Zone, t: int, u: int)
    requires Sane(z) && WorkdaysLastWholeDays(z) && t <= u && !IsWorkday(z.dayOf(u))
    ensures Slot(z, t) <= Slot(z, u)
  {
    var d, e := z.dayOf(t), z.dayOf(u);
    DayMonotone(z, t, u);
    SlotOfWeekend(z, u);
    var saturday := SaturdayOf(e);
    if IsWorkday(d) {
      SlotOfWorkday(z, t);
      DaysInOrder(z, d + 1, saturday);
    } else {
      SlotOfWeekend(z, t);
      DaysInOrder(z, SaturdayOf(d), saturday);
    }
  }

  /** A stride back from a weekend stays in the same stretch. */
  lemma WeekendStrideKeepsSlot(z: Zone, t: int)
    requires Sane(z) && WorkdaysLastWholeDays(z) && !IsWorkday(z.dayOf(t))
    ensures Slot(z, t - DAY) == Slot(z, t)
  {
    SlotOfWeekend(z, t);
    var saturday := SaturdayOf(z.dayOf(t));
    if t - DAY < z.startOf(saturday) {
      LastSlot(z, saturday - 1, t - DAY);
    } else {
      DayBetween(z, saturday, saturday + 2, t - DAY);
    }
  }

  /** The stretch from which a stride leads to the stretch starting at b. */
  lemma SlotBeforeWorkday(z: Zone, d: int, x: int)
    requires Sane(z) && WorkdaysLastWholeDays(z) && IsWorkday(d)
    requires z.startOf(d) - DAY <= x < z.startOf(d)
    ensures Slot(z, x) == z.startOf(if Weekday(d) == 0 then d - 2 else d) - DAY
  {
    if Weekday(d) > 0 {
      LastSlot(z, d - 1, x);
    } else {
      DaysInOrder(z, d - 2, d);
      if x < z.startOf(d - 2) {
        LastSlot(z, d - 3, x);
      } else {
        DayBetween(z, d - 2, d, x);
      }
    }
  }

  /** Two instants of one stretch stay together when both stride back. */
  lemma StrideKeepsTogether(z: Zone, t: int, u: int)
    requires Sane(z) && WorkdaysLastWholeDays(z)
    requires IsWorkday(z.dayOf(t)) && IsWorkday(z.dayOf(u)) && Slot(z, t) == Slot(z, u)
    ensures Slot(z, t - DAY) == Slot(z, u - DAY)
  {
    SlotOfWorkday(z, t);
    SlotOfWorkday(z, u);
    var d, b := z.dayOf(t), Slot(z, t);
    if b == z.startOf(d) {
      SlotBeforeWorkday(z, d, t - DAY);
      SlotBeforeWorkday(z, d, u - DAY);
    } else {
      SlotIsWhole(z, t);
      SameSlot(z, d, b - DAY, t - DAY);
      SameSlot(z, d, b - DAY, u - DAY);
    }
  }

  lemma SlotIsWhole(z: Zone, t: int)
    requires Sane(z) && WorkdaysLastWholeDays(z) && IsWorkday(z.dayOf(t)) && Slot(z, t) != z.startOf(z.dayOf(t))
    ensures var s := z.startOf(z.dayOf(t)); s <= Slot(z, t) - DAY && (Slot(z, t) - DAY - s) % DAY == 0
  {
    SlotOfWorkday(z, t);
    var x := t - z.startOf(z.dayOf(t));
    assert x == x / DAY * DAY + x % DAY;
    assert x - x % DAY - DAY == (x / DAY - 1) * DAY;
  }

  /** A stretch ends before the next one begins. */
  lemma SlotsAreApart(z: Zone, t: int, u: int)
    requires Sane(z) && WorkdaysLastWholeDays(z)
    requires IsWorkday(z.dayOf(t)) && IsWorkday(z.dayOf(u)) && Slot(z, t) < Slot(z, u)
    ensures t < u
  {
    if u <= t { SlotMonotone(z, u, t); }
  }

  lemma StrideKeepsOrder(z: Zone, t: int, u: int)
    requires Sane(z) && WorkdaysLastWholeDays(z)
    requires IsWorkday(z.dayOf(t)) && IsWorkday(z.dayOf(u)) && Slot(z, t) <= Slot(z, u)
    ensures z.dayOf(t) <= z.dayOf(u) && Slot(z, t - DAY) <= Slot(z, u - DAY)
  {
    SlotOfWorkday(z, t);
    SlotOfWorkday(z, u);
    DayMonotone(z, Slot(z, t), Slot(z, u));
    if Slot(z, t) == Slot(z, u) {
      StrideKeepsTogether(z, t, u);
    } else {
      SlotsAreApart(z, t, u);
      SlotMonotone(z, t - DAY, u - DAY);
    }
  }

  lemma WeekendStrideComesCloser(z: Zone, n: nat, t: int)
    requires Sane(z) && WorkdaysLastWholeDays(z) && !IsWorkday(z.dayOf(t))
    ensures Walk(z, n, t) == Walk(z, n, t - DAY)
    ensures Idle(z, t - DAY) < Idle(z, t) && Slot(z, t - DAY) == Slot(z, t)
  {
    StrideFromWeekend(z, t);
    WeekendStrideKeepsSlot(z, t);
  }

  lemma {:induction false} WalkFollowsSlots(z: Zone, n: nat, t: int, u: int)
    requires Sane(z) && WorkdaysLastWholeDays(z) && Slot(z, t) <= Slot(z, u)
    ensures Walk(z, n, t) <= Walk(z, n, u)
    decreases n, Idle(z, t) + Idle(z, u)
  {
    if !IsWorkday(z.dayOf(t)) {
      WeekendStrideComesCloser(z, n, t);
      WalkFollowsSlots(z, n, t - DAY, u);
    } else if !IsWorkday(z.dayOf(u)) {
      WeekendStrideComesCloser(z, n, u);
      WalkFollowsSlots(z, n, t, u - DAY);
    } else {
      StrideKeepsOrder(z, t, u);
      if n > 0 {
        WorkdayStride(z, n, t);
        WorkdayStride(z, n, u);
        WalkFollowsSlots(z, n - 1, t - DAY, u - DAY);
      }
    }
  }

  // ---------------------------------------------------------------- any other work day breaks it

  lemma WorkdayStride(z: Zone, n: nat, t: int)
    requires Sane(z) && IsWorkday(z.dayOf(t)) && n > 0
    ensures Walk(z, n, t) == Walk(z, n - 1, t - DAY)
  {
  }

  ghost predicate AreWorkdays(z: Zone, m: nat, t: int) {
    forall j: nat :: j < m ==> IsWorkday(z.dayOf(t - j * DAY))
  }

  lemma {:induction false} StridesBack(z: Zone, m: nat, k: nat, t: int)
    requires Sane(z) && AreWorkdays(z, m, t)
    ensures Walk(z, m + k, t) == Walk(z, k, t - m * DAY)
    decreases m
  {
    if m > 0 {
      assert IsWorkday(z.dayOf(t - 0 * DAY));
      WorkdayStride(z, m + k, t);
      OneStrideLess(z, m, t);
      StridesBack(z, m - 1, k, t - DAY);
    }
  }

  lemma OneStrideLess(z: Zone, m: nat, t: int)
    requires m > 0 && AreWorkdays(z, m, t)
    ensures AreWorkdays(z, m - 1, t - DAY)
  {
    forall j: nat | j < m - 1 ensures IsWorkday(z.dayOf(t - DAY - j * DAY)) {
      assert t - DAY - j * DAY == t - (j + 1) * DAY;
    }
  }

  /** Strides back through whole days between two work days of one week stay on work days. */
  lemma StridesInWeek(z: Zone, d: int, e: int, m: nat, k: nat, t: int)
    requires Sane(z) && d <= e && IsWorkday(d) && IsWorkday(e) && e - d == Weekday(e) - Weekday(d)
    requires t < z.startOf(e + 1) && (m > 0 ==> z.startOf(d) <= t - (m - 1) * DAY)
    ensures Walk(z, m + k, t) == Walk(z, k, t - m * DAY)
  {
    forall j: nat | j < m ensures IsWorkday(z.dayOf(t - j * DAY)) {
      assert t - (m - 1) * DAY <= t - j * DAY <= t;
      DayBetween(z, d, e + 1, t - j * DAY);
      WorkdayInWeek(d, e, z.dayOf(t - j * DAY));
    }
    StridesBack(z, m, k, t);
  }

  lemma WorkdayInWeek(d: int, e: int, x: int)
    requires d <= x <= e && IsWorkday(d) && IsWorkday(e) && e - d == Weekday(e) - Weekday(d)
    ensures IsWorkday(x)
  {
    assert Weekday(x) == Weekday(d) + (x - d) by { RestAdds(d + 3, x - d); }
  }

  lemma RestAdds(a: int, b: int)
    requires 0 <= b && a % 7 + b < 7
    ensures (a + b) % 7 == a % 7 + b
  {
  }

  /** The last work day of the week of d that is not whole. */
  lemma {:induction false} LastOddWorkday(z: Zone, d: int) returns (e: int)
    requires IsWorkday(d) && Length(z, d) % DAY != 0
    ensures IsWorkday(e) && Length(z, e) % DAY != 0
    ensures forall f: int :: e < f <= e + (4 - Weekday(e)) ==> Length(z, f) % DAY == 0
    decreases 4 - Weekday(d)
  {
    if f: int :| d < f <= d + (4 - Weekday(d)) && Length(z, f) % DAY != 0 {
      RestAdds(d + 3, f - d);
      e := LastOddWorkday(z, f);
    } else {
      e := d;
    }
  }

  /** Whole days add up to a whole number of strides. */
  lemma {:induction false} WholeDaysAddUp(z: Zone, d: int, e: int) returns (m: nat)
    requires Consistent(z) && d <= e
    requires forall f: int :: d < f <= e ==> Length(z, f) % DAY == 0
    ensures z.startOf(e + 1) - z.startOf(d + 1) == m * DAY
    decreases e - d
  {
    m := 0;
    if d < e {
      var less := WholeDaysAddUp(z, d, e - 1);
      assert 0 < Length(z, e) && Length(z, e) % DAY == 0;
      assert Length(z, e) == Length(z, e) / DAY * DAY;
      m := less + Length(z, e) / DAY;
    }
  }

  /** On a zone with a work day that is not whole, some week's last second of Friday and first
      second of Saturday are walked back from to days in the wrong order. */
  lemma OddWorkdayBreaksOrder(z: Zone, d: int) returns (n: nat, t: int)
    requires Sane(z) && IsWorkday(d) && Length(z, d) % DAY != 0
    ensures Walk(z, n, t + 1) < Walk(z, n, t)
  {
    var e := LastOddWorkday(z, d);
    var friday := e + (4 - Weekday(e));
    RestAdds(e + 3, friday - e);
    var m := WholeDaysAddUp(z, e, friday);
    var end, saturday := z.startOf(e + 1), z.startOf(friday + 1);
    var q := Length(z, e) / DAY;
    n, t := m + q, saturday - 1;
    LastSecondStaysOnDay(z, e, friday, m, q);
    FirstSecondLeavesDay(z, e, friday, m, q);
  }

  lemma LastSecondStaysOnDay(z: Zone, e: int, friday: int, m: nat, q: nat)
    requires Sane(z) && IsWorkday(e) && Length(z, e) % DAY != 0 && q == Length(z, e) / DAY
    requires e <= friday && Weekday(friday) == 4 && friday - e == 4 - Weekday(e)
    requires z.startOf(friday + 1) - z.startOf(e + 1) == m * DAY
    ensures Walk(z, m + q, z.startOf(friday + 1) - 1) == e
  {
    var t := z.startOf(friday + 1) - 1;
    assert Length(z, e) == q * DAY + Length(z, e) % DAY && 0 < Length(z, e);
    assert t - (m + q) * DAY == z.startOf(e + 1) - 1 - q * DAY;
    DayBetween(z, e, e + 1, t - (m + q) * DAY);
    assert m + q > 0 ==> t - (m + q) * DAY <= t - (m + q - 1) * DAY;
    StridesInWeek(z, e, friday, m + q, 0, t);
  }

  lemma FirstSecondLeavesDay(z: Zone, e: int, friday: int, m: nat, q: nat)
    requires Sane(z) && IsWorkday(e) && Length(z, e) % DAY != 0 && q == Length(z, e) / DAY
    requires e <= friday && Weekday(friday) == 4 && friday - e == 4 - Weekday(e)
    requires z.startOf(friday + 1) - z.startOf(e + 1) == m * DAY
    ensures Walk(z, m + q, z.startOf(friday + 1)) < e
  {
    var u := z.startOf(friday + 1);
    assert 0 < Length(z, friday + 1);
    DayBetween(z, friday + 1, friday + 2, u);
    assert Weekday(friday + 1) == 5;
    WeekendStride(z, m + q, u);
    assert Length(z, e) == q * DAY + Length(z, e) % DAY && 0 < Length(z, e);
    var last := u - DAY - (m + q) * DAY;
    assert last == z.startOf(e) + Length(z, e) % DAY - DAY;
    assert m + q > 0 ==> z.startOf(e) <= u - DAY - (m + q - 1) * DAY;
    StridesInWeek(z, e, friday, m + q, 0, u - DAY);
    BeforeDay(z, e, last);
    WalkGoesBack(z, 0, last);
  }

  lemma BeforeDay(z: Zone, e: int, t: int)
    requires Consistent(z) && t < z.startOf(e)
    ensures z.dayOf(t) < e
  {
    if e <= z.dayOf(t) { DaysInOrder(z, e, z.dayOf(t)); }
  }

  lemma WeekendStride(z: Zone, n: nat, t: int)
    requires Sane(z) && !IsWorkday(z.dayOf(t))
    ensures Walk(z, n, t) == Walk(z, n, t - DAY)
  {
  }

  // ---------------------------------------------------------------- main results

  /** A later time never gives an earlier day exactly when every work day lasts a whole number of
      times 24 hours, whatever the days of the weekends last. */
  lemma WalkIsMonotoneIff(z: Zone)
    requires Sane(z)
    ensures WalkIsMonotone(z) <==> WorkdaysLastWholeDays(z)
  {
    if WorkdaysLastWholeDays(z) {
      forall n: nat, t: int, u: int | t <= u ensures Walk(z, n, t) <= Walk(z, n, u) {
        SlotMonotone(z, t, u);
        WalkFollowsSlots(z, n, t, u);
      }
    } else {
      var d: int :| IsWorkday(d) && Length(z, d) % DAY != 0;
      var n, t := OddWorkdayBreaksOrder(z, d);
    }
  }

  /** No clock change makes a work day as long as two. */
  ghost predicate WorkdaysAreShort(z: Zone) {
    forall d: int {:trigger Length(z, d)} :: IsWorkday(d) ==> Length(z, d) < 2 * DAY
  }

  /** Among zones whose work days last less than 48 hours the regular ones are those on which a later
      time never gives an earlier day. */
  lemma WalkIsMonotoneIffRegular(z: Zone)
    requires Sane(z) && WorkdaysAreShort(z)
    ensures WalkIsMonotone(z) <==> WorkdaysLast24Hours(z)
  {
    WalkIsMonotoneIff(z);
    if WorkdaysLastWholeDays(z) {
      forall d: int | IsWorkday(d) ensures Length(z, d) == DAY {
        assert 0 < Length(z, d) < 2 * DAY && Length(z, d) % DAY == 0;
      }
    }
  }

  /** The hour is shown on each work day, never where one ends and at the start of the next. */
  ghost predicate IsHourWithinWorkdays(z: Zone, hour: int) {
    || (forall d: int :: IsWorkday(d) ==> z.startOf(d) <= At(z, d, hour) < z.startOf(d + 1))
    || (forall d: int :: IsWorkday(d) ==> z.startOf(d) < At(z, d, hour) <= z.startOf(d + 1))
  }

  ghost predicate ThresholdIsMonotone(z: Zone, endHour: int)
    requires Sane(z)
  {
    forall n: nat, t: int, u: int :: t <= u ==> NoKillsSince(n, t, endHour, z).instant <= NoKillsSince(n, u, endHour, z).instant
  }

  lemma HoursFollowDays(z: Zone, d: int, e: int, hour: int)
    requires Consistent(z) && IsHourWithinWorkdays(z, hour) && IsWorkday(d) && IsWorkday(e)
    ensures At(z, d, hour) <= At(z, e, hour) <==> d <= e
  {
    if d < e { DaysInOrder(z, d + 1, e); }
    if e < d { DaysInOrder(z, e + 1, d); }
  }

  /** The same of the thresholds, for an end hour that the clock shows on every work day. */
  lemma ThresholdIsMonotoneIff(z: Zone, endHour: int)
    requires Sane(z) && IsHourWithinWorkdays(z, endHour)
    ensures ThresholdIsMonotone(z, endHour) <==> WorkdaysLastWholeDays(z)
  {
    forall n: nat, t: int, u: int
      ensures Walk(z, n, t) <= Walk(z, n, u) <==> NoKillsSince(n, t, endHour, z).instant <= NoKillsSince(n, u, endHour, z).instant
    {
      WalkGoesBack(z, n, t);
      WalkGoesBack(z, n, u);
      HoursFollowDays(z, Walk(z, n, t), Walk(z, n, u), endHour);
    }
    WalkIsMonotoneIff(z);
  }

  /** One work day of 25 hours, of whatever weekday, is enough. */
  lemma LongDayBreaksOrder(k: int)
    requires IsWorkday(k)
    ensures Sane(LongDayZone(k)) && !WalkIsMonotone(LongDayZone(k))
  {
    LongDayIsRegularIff(k);
    WalkIsMonotoneIff(LongDayZone(k));
  }
}
