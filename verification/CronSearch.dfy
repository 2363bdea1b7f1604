/** When the bounded five-year search of a UTC cron schedule finds an occurrence. */
module CronSearch {
  import opened Wrappers
  import opened Calendar
  import opened CronSchedule

  function At(day: int, hour: int, minute: int): int {
    (day * 1440 + hour * 60 + minute) * MICROS_PER_MINUTE
  }

  /** The day number of the first minute the search looks at. */
  function StartDay(after: int): int {
    (after / MICROS_PER_MINUTE + 1) / 1440
  }

  function WindowEnd(after: int): int {
    FloorMinute(after) + (SEARCH_MINUTES + 1) * MICROS_PER_MINUTE
  }

  /** Some listed day exists in some listed month of a common year. */
  predicate HasCommonDay(f: CronFields) {
    exists m, d | m in f.months && d in f.days :: d <= CommonDays(m)
  }

  predicate Unfailing(f: CronFields) {
    !f.weekdayIsWildcard || f.dayIsWildcard || HasCommonDay(f)
  }

  /** A listed minute of a 29th of February lies inside the search window. */
  ghost predicate LeapDayInWindow(f: CronFields, after: int) {
    && 29 in f.days && 2 in f.months
    && exists year: int, h: int, m: int :: LeapMinuteInWindow(f, after, year, h, m)
  }

  predicate LeapMinuteInWindow(f: CronFields, after: int, year: int, h: int, m: int) {
    && IsLeap(year) && h in f.hours && m in f.minutes
    && after < At(DayNumber(Date(year, 2, 29)), h, m) < WindowEnd(after)
  }

  lemma MinuteOfDay(day: int, hour: int, minute: int)
    requires 0 <= hour < 24 && 0 <= minute < 60
    ensures var k := At(day, hour, minute) / MICROS_PER_MINUTE;
      k == day * 1440 + hour * 60 + minute && k / 1440 == day && k % 60 == minute && k / 60 == day * 24 + hour && k / 60 % 24 == hour
    ensures At(day, hour, minute) % MICROS_PER_MINUTE == 0
  {
    var k := day * 1440 + hour * 60 + minute;
    assert At(day, hour, minute) == k * MICROS_PER_MINUTE;
    assert k / 60 == day * 24 + hour;
  }

  lemma UtcLocal(day: int, hour: int, minute: int)
    requires 0 <= hour < 24 && 0 <= minute < 60
    ensures Local(UTC, At(day, hour, minute)) ==
            LocalTime(minute, hour, Civil(day).day, Civil(day).month, (day + 1) % 7, false)
    ensures At(day, hour, minute) % MICROS_PER_MINUTE == 0
  {
    hide Civil;
    MinuteOfDay(day, hour, minute);
    hide At;
  }

  lemma UtcSplit(t: int) returns (day: int, hour: int, minute: int)
    requires t % MICROS_PER_MINUTE == 0
    ensures 0 <= hour < 24 && 0 <= minute < 60 && t == At(day, hour, minute)
  {
    var k := t / MICROS_PER_MINUTE;
    minute := k % 60;
    hour := k / 60 % 24;
    day := k / 60 / 24;
  }

  lemma HitSucceeds(s: ScheduleSpec, after: int, t: int)
    requires WellFormed(s) && s.Cron? && Occurs(s, t) && after < t < WindowEnd(after)
    ensures NextOccurrence(s, after).Ok?
  {
    hide Occurs;
    NextIsLeast(s, after);
  }

  /** A matching day within the 1828 days after the start day is inside the window at every hour. */
  lemma DayHit(f: CronFields, after: int, day: int, hour: int, minute: int)
    requires ValidFields(f) && hour in f.hours && minute in f.minutes
    requires DayMatches(f, Civil(day).day, (day + 1) % 7) && Civil(day).month in f.months
    requires StartDay(after) < day <= StartDay(after) + 1828
    ensures NextOccurrence(Cron(f, UTC), after).Ok?
  {
    UtcLocal(day, hour, minute);
    var s, t := Cron(f, UTC), At(day, hour, minute);
    assert Occurs(s, t) by { hide Civil; }
    assert after < t < WindowEnd(after) by {
      var c := after / MICROS_PER_MINUTE + 1;
      assert c < (StartDay(after) + 1) * 1440 && StartDay(after) * 1440 <= c;
    }
    HitSucceeds(s, after, t);
  }

  lemma YearAfter(start: int, d: Date)
    requires ValidDate(d) && d.year == Civil(start).year + 1
    ensures start < DayNumber(d) < start + 732
  {
    hide *;
    var y := Civil(start).year;
    DateInYear(Civil(start));
    DateInYear(d);
    YearLength(y);
    YearLength(y + 1);
  }

  lemma WeekdayOffset(first: int, w: int) returns (offset: int)
    requires 0 <= w <= 6
    ensures 0 <= offset < 7 && (first + offset + 1) % 7 == w
  {
    offset := (w - first - 1) % 7;
  }

  /** Every listed month of every year holds a day that matches an unfailing expression. */
  lemma MatchingDayInMonth(f: CronFields, year: int, month: int, d: int) returns (date: Date)
    requires ValidFields(f) && month in f.months && d in f.days
    requires !f.weekdayIsWildcard || f.dayIsWildcard || d <= CommonDays(month)
    ensures ValidDate(date) && date.year == year && date.month == month
    ensures DayMatches(f, date.day, (DayNumber(date) + 1) % 7)
  {
    if f.dayIsWildcard || !f.weekdayIsWildcard {
      var w := Pick(f.weekdays);
      var first := DayNumber(Date(year, month, 1));
      var offset := WeekdayOffset(first, w);
      date := Date(year, month, 1 + offset);
    } else {
      date := Date(year, month, d);
    }
  }

  lemma UnfailingSucceeds(f: CronFields, after: int)
    requires ValidFields(f) && Unfailing(f)
    ensures NextOccurrence(Cron(f, UTC), after).Ok?
  {
    var m, d: int;
    if HasCommonDay(f) {
      m, d :| m in f.months && d in f.days && d <= CommonDays(m);
    } else {
      m := Pick(f.months);
      d := Pick(f.days);
    }
    var start := StartDay(after);
    var date := MatchingDayInMonth(f, Civil(start).year + 1, m, d);
    var h := Pick(f.hours);
    var mi := Pick(f.minutes);
    hide *;
    CivilRoundTrip(date);
    YearAfter(start, date);
    DayHit(f, after, DayNumber(date), h, mi);
  }

  /** An expression that can fail only ever matches on leap days. */
  lemma OnlyLeapDays(f: CronFields, t: int) returns (year: int, h: int, m: int)
    requires ValidFields(f) && !Unfailing(f) && Occurs(Cron(f, UTC), t)
    ensures 29 in f.days && 2 in f.months && IsLeap(year) && h in f.hours && m in f.minutes
    ensures t == At(DayNumber(Date(year, 2, 29)), h, m)
  {
    var day;
    day, h, m := UtcSplit(t);
    UtcLocal(day, h, m);
    var date := Civil(day);
    year := date.year;
    assert date.day in f.days && date.month in f.months;
    assert date.day > CommonDays(date.month);
  }

  /** The search succeeds exactly for an unfailing expression, or when a listed leap-day minute is in its window. */
  lemma UtcSearchExactly(f: CronFields, after: int)
    requires ValidFields(f)
    ensures NextOccurrence(Cron(f, UTC), after).Ok? <==> Unfailing(f) || LeapDayInWindow(f, after)
  {
    var s := Cron(f, UTC);
    if Unfailing(f) {
      UnfailingSucceeds(f, after);
    } else if LeapDayInWindow(f, after) {
      var year, h, m :| LeapMinuteInWindow(f, after, year, h, m);
      var date := Date(year, 2, 29);
      CivilRoundTrip(date);
      UtcLocal(DayNumber(date), h, m);
      HitSucceeds(s, after, At(DayNumber(date), h, m));
    } else if NextOccurrence(s, after).Ok? {
      NextIsLeast(s, after);
      var year, h, m := OnlyLeapDays(f, NextOccurrence(s, after).value.value);
      assert LeapMinuteInWindow(f, after, year, h, m);
    }
  }

  /** With a 29th of February listed, the search fails only across a century year that is not leap. */
  lemma LeapDaySearchFailsOnlyAtCenturies(f: CronFields, after: int)
    requires ValidFields(f) && 29 in f.days && 2 in f.months
    requires NextOccurrence(Cron(f, UTC), after).Raised?
    ensures var year := Civil(StartDay(after)).year;
            exists c | year < c <= year + 4 :: c % 100 == 0 && c % 400 != 0
  {
    hide Civil;
    hide NextOccurrence;
    var start := StartDay(after);
    var year := Civil(start).year;
    var leap := NextFourth(year);
    if IsLeap(leap) {
      LeapYearSucceeds(f, after, start, leap);
    }
  }

  lemma NextFourth(year: int) returns (leap: int)
    ensures year < leap <= year + 4 && leap % 4 == 0
    ensures !IsLeap(leap) ==> leap % 100 == 0 && leap % 400 != 0
  {
    leap := year + 4 - year % 4;
  }

  lemma LeapYearSucceeds(f: CronFields, after: int, start: int, leap: int)
    requires ValidFields(f) && 29 in f.days && 2 in f.months && start == StartDay(after)
    requires Civil(start).year < leap <= Civil(start).year + 4 && IsLeap(leap)
    ensures NextOccurrence(Cron(f, UTC), after).Ok?
  {
    hide Civil;
    hide NextOccurrence;
    hide HasCommonDay;
    if Unfailing(f) {
      UnfailingSucceeds(f, after);
    } else {
      var date := Date(leap, 2, 29);
      CivilRoundTrip(date);
      LeapDayDistance(start, leap);
      var h := Pick(f.hours);
      var m := Pick(f.minutes);
      DayHit(f, after, DayNumber(date), h, m);
    }
  }

  lemma LeapDayDistance(start: int, leap: int)
    requires Civil(start).year < leap <= Civil(start).year + 4 && IsLeap(leap)
    ensures start < DayNumber(Date(leap, 2, 29)) <= start + 1828
  {
    var year := Civil(start).year;
    DateInYear(Civil(start));
    DateInYear(Date(leap, 2, 29));
    YearsGrow(year, leap);
    YearsGrow(year + 1, leap);
  }

  /** Midnight on every 29th of February. */
  const LEAP_MIDNIGHT := CronFields({0}, {0}, {29}, {2}, {0, 1, 2, 3, 4, 5, 6}, false, true)

  const LAST_LEAP_DAY := At(DayNumber(Date(2096, 2, 29)), 0, 0)

  /** The five-year window does not cover every valid expression: after its occurrence on 2096-02-29 this one
      finds no next, because 2100 is not a leap year and 2104 is too far. */
  lemma FiveYearsAreNotEnough()
    ensures WellFormed(Cron(LEAP_MIDNIGHT, UTC)) && Occurs(Cron(LEAP_MIDNIGHT, UTC), LAST_LEAP_DAY)
    ensures NextOccurrence(Cron(LEAP_MIDNIGHT, UTC), LAST_LEAP_DAY).Raised?
  {
    hide *;
    LeapMidnightIsValid();
    LeapMidnightOccurs();
    UtcSearchExactly(LEAP_MIDNIGHT, LAST_LEAP_DAY);
    NoLeapDayInWindow();
  }

  lemma LeapMidnightIsValid()
    ensures WellFormed(Cron(LEAP_MIDNIGHT, UTC)) && ValidFields(LEAP_MIDNIGHT) && !Unfailing(LEAP_MIDNIGHT)
  {
  }

  lemma NoLeapDayInWindow()
    ensures !LeapDayInWindow(LEAP_MIDNIGHT, LAST_LEAP_DAY)
  {
    if LeapDayInWindow(LEAP_MIDNIGHT, LAST_LEAP_DAY) {
      var year, h, m :| LeapMinuteInWindow(LEAP_MIDNIGHT, LAST_LEAP_DAY, year, h, m);
      NoLeapDayAhead(year);
      hide DayNumber;
      hide IsLeap;
    }
  }

  lemma LeapMidnightOccurs()
    ensures Occurs(Cron(LEAP_MIDNIGHT, UTC), LAST_LEAP_DAY)
  {
    var day := DayNumber(Date(2096, 2, 29));
    CivilRoundTrip(Date(2096, 2, 29));
    hide *;
    LeapDayMatches(day);
  }

  lemma LeapDayMatches(day: int)
    requires Civil(day).month == 2 && Civil(day).day == 29
    ensures Occurs(Cron(LEAP_MIDNIGHT, UTC), At(day, 0, 0))
  {
    UtcLocal(day, 0, 0);
    hide Civil;
    hide Local;
    hide At;
  }

  lemma NoLeapDayAhead(year: int)
    requires IsLeap(year)
    ensures !(DayNumber(Date(2096, 2, 29)) < DayNumber(Date(year, 2, 29)) <= DayNumber(Date(2096, 2, 29)) + 1831)
  {
    if year <= 2096 {
      YearsGrow(year, 2096);
    } else if year >= 2102 {
      YearsGrow(2102, year);
    }
  }

  /** The first day of the century. */
  const CENTURY_START := At(DayNumber(Date(2001, 1, 1)), 0, 0)

  /** From any instant of the century before that occurrence the search for the next one succeeds. */
  lemma LeapMidnightIsFoundBefore(after: int)
    requires CENTURY_START <= after < LAST_LEAP_DAY
    ensures NextOccurrence(Cron(LEAP_MIDNIGHT, UTC), after).Ok?
  {
    hide *;
    LeapMidnightIsValid();
    YearOfStart(after);
    if Civil(StartDay(after)).year <= 2095 {
      FoundInFourth(after);
    } else {
      AlmostThere(after);
      LeapMidnightOccurs();
      LeapMidnightLists();
      HitSucceeds(Cron(LEAP_MIDNIGHT, UTC), after, LAST_LEAP_DAY);
    }
  }

  lemma FoundInFourth(after: int)
    requires 2001 <= Civil(StartDay(after)).year <= 2095
    ensures WellFormed(Cron(LEAP_MIDNIGHT, UTC)) && NextOccurrence(Cron(LEAP_MIDNIGHT, UTC), after).Ok?
  {
    hide *;
    LeapMidnightIsValid();
    LeapMidnightLists();
    var leap := NextFourth(Civil(StartDay(after)).year);
    FourthsAreLeap(leap);
    LeapYearSucceeds(LEAP_MIDNIGHT, after, StartDay(after), leap);
  }

  lemma LeapMidnightLists()
    ensures 29 in LEAP_MIDNIGHT.days && 2 in LEAP_MIDNIGHT.months && Cron(LEAP_MIDNIGHT, UTC).Cron?
  {
  }

  lemma FourthsAreLeap(year: int)
    requires 2001 <= year <= 2096 && year % 4 == 0
    ensures IsLeap(year)
  {
  }

  lemma YearOfStart(after: int)
    requires CENTURY_START <= after
    ensures 2001 <= Civil(StartDay(after)).year
  {
    var start := StartDay(after);
    assert start >= DaysBeforeYear(2001);
    DateInYear(Civil(start));
    if Civil(start).year < 2001 {
      YearsGrow(Civil(start).year + 1, 2001);
    }
  }

  lemma AlmostThere(after: int)
    requires after < LAST_LEAP_DAY && Civil(StartDay(after)).year >= 2096
    ensures LAST_LEAP_DAY < WindowEnd(after)
  {
    var start := StartDay(after);
    DateInYear(Civil(start));
    YearsGrow(2096, Civil(start).year);
    assert start >= DaysBeforeYear(2096);
    assert DayNumber(Date(2096, 2, 29)) == DaysBeforeYear(2096) + 59;
  }
}
