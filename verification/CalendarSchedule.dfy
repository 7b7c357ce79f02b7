/** Wall-clock schedules: the bounded search for the next slot always succeeds and finds the least one. */
module CalendarSchedule {
  import opened Wrappers

  datatype Date = Date(year: int, month: int, day: int)

  predicate Leap(y: int) {
    y % 4 == 0 && (y % 100 != 0 || y % 400 == 0)
  }

  function MonthLength(y: int, m: int): int {
    if m == 2 then (if Leap(y) then 29 else 28) else if m == 4 || m == 6 || m == 9 || m == 11 then 30 else 31
  }

  predicate Valid(d: Date) {
    d.year >= 1 && 1 <= d.month <= 12 && 1 <= d.day <= MonthLength(d.year, d.month)
  }

  function NextDay(d: Date): Date {
    if d.day < MonthLength(d.year, d.month) then Date(d.year, d.month, d.day + 1)
    else if d.month < 12 then Date(d.year, d.month + 1, 1)
    else Date(d.year + 1, 1, 1)
  }

  /** `d + timedelta(days=n)`. */
  function AddDays(d: Date, n: nat): Date {
    if n == 0 then d else NextDay(AddDays(d, n - 1))
  }

  // ----------------------------------------------------------------- ordinals

  function DaysBeforeMonth(y: int, m: int): int {
    if m <= 1 then 0 else DaysBeforeMonth(y, m - 1) + MonthLength(y, m - 1)
  }

  function DaysBeforeYear(y: int): int {
    365 * (y - 1) + (y - 1) / 4 - (y - 1) / 100 + (y - 1) / 400
  }

  /** The proleptic Gregorian ordinal; day 1 is Monday. */
  function Ordinal(d: Date): int {
    DaysBeforeYear(d.year) + DaysBeforeMonth(d.year, d.month) + d.day
  }

  /** `isoweekday`. */
  function Weekday(d: Date): int {
    (Ordinal(d) + 6) % 7 + 1
  }

  predicate Before(a: Date, b: Date) {
    a.year < b.year || (a.year == b.year && (a.month < b.month || (a.month == b.month && a.day < b.day)))
  }

  lemma Quarters(y: int)
    ensures y / 4 == (y - 1) / 4 + if y % 4 == 0 then 1 else 0
  {
  }

  lemma Centuries(y: int)
    ensures y / 100 == (y - 1) / 100 + if y % 100 == 0 then 1 else 0
  {
  }

  lemma Cycles(y: int)
    ensures y / 400 == (y - 1) / 400 + if y % 400 == 0 then 1 else 0
    ensures y % 400 == 0 ==> y % 100 == 0
    ensures y % 100 == 0 ==> y % 4 == 0
  {
  }

  lemma YearLength(y: int)
    ensures DaysBeforeYear(y + 1) == DaysBeforeYear(y) + if Leap(y) then 366 else 365
  {
    Quarters(y);
    Centuries(y);
    Cycles(y);
    assert y + 1 - 1 == y;
  }

  lemma MonthsOfYear(y: int)
    ensures DaysBeforeMonth(y, 12) + MonthLength(y, 12) == if Leap(y) then 366 else 365
  {
    hide Leap;
    assert DaysBeforeMonth(y, 2) == 31;
    assert DaysBeforeMonth(y, 3) == 31 + MonthLength(y, 2);
    assert DaysBeforeMonth(y, 4) == 62 + MonthLength(y, 2);
    assert DaysBeforeMonth(y, 5) == 92 + MonthLength(y, 2);
    assert DaysBeforeMonth(y, 6) == 123 + MonthLength(y, 2);
    assert DaysBeforeMonth(y, 7) == 153 + MonthLength(y, 2);
    assert DaysBeforeMonth(y, 8) == 184 + MonthLength(y, 2);
    assert DaysBeforeMonth(y, 9) == 215 + MonthLength(y, 2);
    assert DaysBeforeMonth(y, 10) == 245 + MonthLength(y, 2);
    assert DaysBeforeMonth(y, 11) == 276 + MonthLength(y, 2);
    assert DaysBeforeMonth(y, 12) == 306 + MonthLength(y, 2);
  }

  /** The next day is valid and one further. */
  lemma NextDayIsNext(d: Date)
    requires Valid(d)
    ensures Valid(NextDay(d)) && Ordinal(NextDay(d)) == Ordinal(d) + 1 && Before(d, NextDay(d))
  {
    hide Leap, DaysBeforeYear;
    if d.day == MonthLength(d.year, d.month) && d.month == 12 {
      YearLength(d.year);
      MonthsOfYear(d.year);
    }
  }

  lemma {:induction false} AddDaysIsLater(d: Date, n: nat)
    requires Valid(d)
    ensures Valid(AddDays(d, n)) && Ordinal(AddDays(d, n)) == Ordinal(d) + n
  {
    hide Ordinal, Valid;
    if n > 0 {
      AddDaysIsLater(d, n - 1);
      NextDayIsNext(AddDays(d, n - 1));
    }
  }

  lemma {:induction false} MonthsGrow(y: int, m: int, k: int)
    requires 1 <= m < k <= 12
    ensures DaysBeforeMonth(y, m) + MonthLength(y, m) <= DaysBeforeMonth(y, k)
  {
    hide Leap;
    if m < k - 1 {
      MonthsGrow(y, m, k - 1);
    }
  }

  lemma {:induction false} YearsGrow(y: int, z: int)
    requires y < z
    ensures DaysBeforeYear(y) + (if Leap(y) then 366 else 365) <= DaysBeforeYear(z)
    decreases z - y
  {
    YearLength(z - 1);
    if y < z - 1 {
      YearsGrow(y, z - 1);
    }
  }

  lemma WithinYear(d: Date)
    requires Valid(d)
    ensures 1 <= DaysBeforeMonth(d.year, d.month) + d.day <= if Leap(d.year) then 366 else 365
  {
    hide Leap;
    MonthsOfYear(d.year);
    if d.month < 12 {
      MonthsGrow(d.year, d.month, 12);
    }
    if d.month > 1 {
      MonthsGrow(d.year, 1, d.month);
    }
  }

  lemma OrdinalsRise(a: Date, b: Date)
    requires Valid(a) && Valid(b) && Before(a, b)
    ensures Ordinal(a) < Ordinal(b)
  {
    hide DaysBeforeYear, Leap, MonthLength;
    if a.year < b.year {
      WithinYear(a);
      WithinYear(b);
      YearsGrow(a.year, b.year);
    } else if a.month < b.month {
      MonthsGrow(a.year, a.month, b.month);
    }
  }

  /** Ordinals order dates as the calendar does. */
  lemma OrdinalsOrder(a: Date, b: Date)
    requires Valid(a) && Valid(b)
    ensures Before(a, b) <==> Ordinal(a) < Ordinal(b)
    ensures a == b <==> Ordinal(a) == Ordinal(b)
  {
    hide Ordinal, Valid;
    if Before(a, b) {
      OrdinalsRise(a, b);
    } else if Before(b, a) {
      OrdinalsRise(b, a);
    }
  }

  /** Weekdays run from Monday to Sunday and start over. */
  lemma WeekdaysCycle(d: Date)
    requires Valid(d)
    ensures 1 <= Weekday(d) <= 7
    ensures Weekday(NextDay(d)) == if Weekday(d) == 7 then 1 else Weekday(d) + 1
  {
    hide Ordinal, Valid;
    NextDayIsNext(d);
    WeekdayAdds(Ordinal(d), Weekday(d), 1);
  }

  /** 1 January 2024 was a Monday, and 29 February 2024 a Thursday. */
  lemma KnownWeekdays()
    ensures Weekday(Date(2024, 1, 1)) == 1 && Weekday(Date(2024, 2, 29)) == 4
  {
    assert DaysBeforeMonth(2024, 2) == 31;
  }

  /** April, June, September and November have 30 days, February 28 or 29, all other months 31. */
  lemma MonthLengths(y: int)
    ensures forall m :: m in {1, 3, 5, 7, 8, 10, 12} ==> MonthLength(y, m) == 31
    ensures forall m :: m in {4, 6, 9, 11} ==> MonthLength(y, m) == 30
    ensures MonthLength(y, 2) == if y % 400 == 0 || (y % 4 == 0 && y % 100 != 0) then 29 else 28
  {
    LeapIs(y);
    hide Leap;
  }

  lemma LeapIs(y: int)
    ensures Leap(y) <==> y % 400 == 0 || (y % 4 == 0 && y % 100 != 0)
  {
    if y % 400 == 0 {
      FourDivides(y, 100 * (y / 400));
    }
  }

  lemma FourDivides(y: int, k: int)
    requires y == 4 * k
    ensures y % 4 == 0
  {
  }

  // ---------------------------------------------------------------- schedules

  datatype Mode = Daily | Weekly(day: int) | Monthly(day: int)

  /** `time` in seconds of the day; `validate_calendar` accepts whole minutes only. */
  datatype Schedule = Schedule(mode: Mode, time: int)

  predicate ValidSchedule(s: Schedule) {
    && 0 <= s.time < 86400 && s.time % 60 == 0
    && (s.mode.Weekly? ==> 1 <= s.mode.day <= 7)
    && (s.mode.Monthly? ==> 1 <= s.mode.day <= 31)
  }

  /** A day of the schedule; a missing monthly day uses the month's last day. */
  predicate Matches(s: Schedule, d: Date) {
    match s.mode
    case Daily => true
    case Weekly(day) => Weekday(d) == day
    case Monthly(day) => d.day == if day <= MonthLength(d.year, d.month) then day else MonthLength(d.year, d.month)
  }

  /** A monthly day is that day of the month, or the month's last day when the month is shorter. */
  lemma MonthlyMeans(day: int, time: int, d: Date)
    requires Valid(d)
    ensures Matches(Schedule(Monthly(day), time), d) <==>
            d.day == day || (d.day < day && NextDay(d).month != d.month)
  {
    hide Leap;
  }

  /** The slot of day `d` lies strictly after the local instant. */
  predicate SlotAfter(s: Schedule, d: Date, today: Date, clock: real) {
    Before(today, d) || (d == today && s.time as real > clock)
  }

  predicate IsSlot(s: Schedule, d: Date, today: Date, clock: real) {
    Valid(d) && Matches(s, d) && SlotAfter(s, d, today, clock)
  }

  // ------------------------------------------------------ the search succeeds

  /** Some day in the next week has any given weekday. */
  lemma WeekdayComes(d: Date, day: int) returns (n: nat)
    requires Valid(d) && 1 <= day <= 7
    ensures 1 <= n <= 7 && Weekday(AddDays(d, n)) == day
  {
    hide Ordinal, AddDays, Valid;
    var w := Weekday(d);
    n := if day > w then day - w else day - w + 7;
    AddDaysIsLater(d, n);
    WeekdayAdds(Ordinal(d), w, n);
  }

  lemma WeekdayAdds(o: int, w: int, n: nat)
    requires w == (o + 6) % 7 + 1 && n <= 7
    ensures (o + n + 6) % 7 + 1 == if w + n <= 7 then w + n else w + n - 7
  {
  }

  lemma {:induction false} SameMonth(d: Date, n: nat)
    requires Valid(d) && d.day + n <= MonthLength(d.year, d.month)
    ensures AddDays(d, n) == Date(d.year, d.month, d.day + n)
  {
    if n > 0 {
      SameMonth(d, n - 1);
    }
  }

  function FirstOfNextMonth(d: Date): Date {
    if d.month < 12 then Date(d.year, d.month + 1, 1) else Date(d.year + 1, 1, 1)
  }

  lemma NextMonth(d: Date) returns (n: nat)
    requires Valid(d)
    ensures n == MonthLength(d.year, d.month) - d.day + 1 && AddDays(d, n) == FirstOfNextMonth(d)
  {
    n := MonthLength(d.year, d.month) - d.day + 1;
    SameMonth(d, n - 1);
  }

  lemma {:induction false} AddDaysAdds(d: Date, n: nat, m: nat)
    ensures AddDays(d, n + m) == AddDays(AddDays(d, n), m)
  {
    if m > 0 {
      AddDaysAdds(d, n, m - 1);
    }
  }

  function Clamped(y: int, m: int, day: int): int {
    if day <= MonthLength(y, m) then day else MonthLength(y, m)
  }

  /** Some day within the next 31 is the clamped monthly day. */
  lemma MonthlyDayComes(d: Date, day: int) returns (n: nat)
    requires Valid(d) && 1 <= day <= 31
    ensures 1 <= n <= 31
    ensures var x := AddDays(d, n); x.day == Clamped(x.year, x.month, day)
  {
    hide Leap;
    var c := Clamped(d.year, d.month, day);
    if d.day < c {
      n := c - d.day;
      SameMonth(d, n);
    } else {
      var k := NextMonth(d);
      var first := FirstOfNextMonth(d);
      var m := Clamped(first.year, first.month, day) - 1;
      SameMonth(first, m);
      AddDaysAdds(d, k, m);
      n := k + m;
    }
  }

  /** Within 31 days every valid schedule has a matching later day. */
  lemma SlotComes(s: Schedule, d: Date) returns (n: nat)
    requires ValidSchedule(s) && Valid(d)
    ensures 1 <= n <= 31 && Matches(s, AddDays(d, n))
  {
    match s.mode
    case Daily => n := 1;
    case Weekly(day) => n := WeekdayComes(d, day);
    case Monthly(day) => n := MonthlyDayComes(d, day);
  }

  // ------------------------------------------------------------- as it runs

  /**
   `next_slot`: an invalid schedule is refused; for a valid one the bounded loop always returns, and what it
   returns is the least matching wall-clock slot strictly after the instant, over all dates of the calendar.
   */
  method NextSlot(s: Schedule, today: Date, clock: real) returns (slot: Option<Date>)
    requires Valid(today) && 0.0 <= clock < 86400.0
    ensures slot.Some? <==>
            && 0 <= s.time < 24 * 3600 && s.time % 60 == 0
            && (s.mode.Weekly? ==> 1 <= s.mode.day <= 7) && (s.mode.Monthly? ==> 1 <= s.mode.day <= 31)
    ensures slot.Some? ==> IsSlot(s, slot.value, today, clock) && Ordinal(slot.value) - Ordinal(today) <= 31
    ensures slot.Some? ==> forall x :: IsSlot(s, x, today, clock) ==> x == slot.value || Before(slot.value, x)
  {
    hide Matches, Ordinal, Valid;
    if !ValidSchedule(s) {
      return None;
    }
    ghost var soon := SlotComes(s, today);
    for offset := 0 to 63
      invariant forall n: nat :: n < offset ==> !(Matches(s, AddDays(today, n)) && (n > 0 || s.time as real > clock))
    {
      var day := AddDays(today, offset);
      if Matches(s, day) {
        if offset > 0 || s.time as real > clock {
          AddDaysIsLater(today, offset);
          OrdinalsOrder(today, day);
          assert offset <= soon;
          LeastOffset(s, today, clock, offset);
          return Some(day);
        }
      }
    }
    assert false;
  }

  /** The least offset gives the least date. */
  lemma LeastOffset(s: Schedule, today: Date, clock: real, offset: nat)
    requires Valid(today)
    requires forall n: nat :: n < offset ==> !(Matches(s, AddDays(today, n)) && (n > 0 || s.time as real > clock))
    ensures forall x :: IsSlot(s, x, today, clock) ==> x == AddDays(today, offset) || Before(AddDays(today, offset), x)
  {
  }
}
