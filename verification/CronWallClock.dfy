/** What the calendar and the clock on the wall show at an occurrence: the meaning of a cron schedule without the
    functions that search for it. */
module CronWallClock {
  import opened Wrappers
  import opened Calendar
  import opened CronSchedule

  // ----- Dates -----

  const MONTH_LENGTHS: seq<int> := [31, 28, 31, 30, 31, 30, 31, 31, 30, 31, 30, 31]

  predicate HasLeapDay(year: int) {
    year % 400 == 0 || (year % 4 == 0 && year % 100 != 0)
  }

  function LengthOfMonth(year: int, month: int): int
    requires 1 <= month <= 12
  {
    if month == 2 && HasLeapDay(year) then 29 else MONTH_LENGTHS[month - 1]
  }

  predicate OnCalendar(d: Date) {
    1 <= d.month <= 12 && 1 <= d.day <= LengthOfMonth(d.year, d.month)
  }

  function Tomorrow(d: Date): Date
    requires OnCalendar(d)
  {
    if d.day < LengthOfMonth(d.year, d.month) then Date(d.year, d.month, d.day + 1)
    else if d.month < 12 then Date(d.year, d.month + 1, 1)
    else Date(d.year + 1, 1, 1)
  }

  lemma CommonLengths(month: int)
    requires 1 <= month <= 12
    ensures MONTH_LENGTHS[month - 1] == CommonDays(month)
  {
  }

  lemma LeapRule(year: int)
    ensures HasLeapDay(year) <==> IsLeap(year)
  {
    if year % 400 == 0 {
      var q := year / 400;
      DivUnique(year, 4, 100 * q, 0);
      DivUnique(year, 100, 4 * q, 0);
    }
  }

  lemma OnCalendarIsValid(d: Date)
    ensures OnCalendar(d) <==> ValidDate(d)
    ensures OnCalendar(d) ==> LengthOfMonth(d.year, d.month) == DaysInMonth(d.year, d.month)
  {
    LeapRule(d.year);
    hide IsLeap;
    hide HasLeapDay;
    if 1 <= d.month <= 12 {
      CommonLengths(d.month);
      hide CommonDays;
    }
  }

  /** Day 0 is 1 January of year 1, and each day number is followed by that of the next date on the calendar. */
  lemma DaysFollowTheCalendar(day: int)
    ensures Civil(0) == Date(1, 1, 1)
    ensures OnCalendar(Civil(day)) && Civil(day + 1) == Tomorrow(Civil(day))
  {
    FirstDay();
    var d := Civil(day);
    OnCalendarIsValid(d);
    hide Civil;
    TomorrowIsNext(d);
    hide DayNumber;
    hide ValidDate;
    hide Tomorrow;
    hide OnCalendar;
    CivilRoundTrip(Tomorrow(d));
  }

  lemma FirstDay()
    ensures Civil(0) == Date(1, 1, 1)
  {
    assert ValidDate(Date(1, 1, 1)) && DayNumber(Date(1, 1, 1)) == 0;
    hide *;
    CivilRoundTrip(Date(1, 1, 1));
  }

  lemma TomorrowIsNext(d: Date)
    requires OnCalendar(d) && ValidDate(d)
    ensures ValidDate(Tomorrow(d)) && DayNumber(Tomorrow(d)) == DayNumber(d) + 1
  {
    OnCalendarIsValid(d);
    if d.day == LengthOfMonth(d.year, d.month) {
      if d.month < 12 {
        assert forall m: int | 1 <= m < 13 :: COMMON_DAYS_BEFORE[m] == COMMON_DAYS_BEFORE[m - 1] + CommonDays(m);
      } else {
        YearLength(d.year);
      }
    }
  }

  // ----- Clocks -----

  /** Microseconds from the first midnight to this minute. */
  function Moment(d: Date, hour: int, minute: int): int
    requires OnCalendar(d)
  {
    ((DayNumber(d) * 24 + hour) * 60 + minute) * 60_000_000
  }

  /** Day 0 was a Monday; Sunday counts as 0. */
  function WeekdayOf(d: Date): int
    requires OnCalendar(d)
  {
    (DayNumber(d) + 1) % 7
  }

  /** What clocks in the zone show at an instant. */
  function Wall(zone: Zone, t: int): int {
    t + zone.OffsetAt(t, |zone.changes|)
  }

  /** An asterisk restricts nothing; two restricted day fields are alternatives. */
  predicate DayListed(f: CronFields, d: Date)
    requires OnCalendar(d)
  {
    if f.dayIsWildcard || f.weekdayIsWildcard then d.day in f.days && WeekdayOf(d) in f.weekdays
    else d.day in f.days || WeekdayOf(d) in f.weekdays
  }

  predicate Listed(f: CronFields, d: Date, hour: int, minute: int) {
    OnCalendar(d) && 0 <= hour < 24 && 0 <= minute < 60 && minute in f.minutes && hour in f.hours && d.month in f.months && DayListed(f, d)
  }

  /** At this instant clocks in the zone show a listed date and time to the minute. */
  ghost predicate ShowsListed(f: CronFields, zone: Zone, t: int) {
    exists d: Date, hour: int, minute: int :: Listed(f, d, hour, minute) && Reads(zone, t, d, hour, minute)
  }

  predicate Reads(zone: Zone, t: int, d: Date, hour: int, minute: int) {
    OnCalendar(d) && Moment(d, hour, minute) <= Wall(zone, t) < Moment(d, hour, minute) + 60_000_000
  }

  lemma SplitMinute(k: int, day: int, hour: int, minute: int)
    requires k == (day * 24 + hour) * 60 + minute && 0 <= hour < 24 && 0 <= minute < 60
    ensures k % 60 == minute && k / 60 % 24 == hour && k / 1440 == day
  {
    DivUnique(k, 60, day * 24 + hour, minute);
    DivUnique(day * 24 + hour, 24, day, hour);
    DivUnique(k, 1440, day, hour * 60 + minute);
  }

  /** The local fields of an instant are those its reading names. */
  lemma ReadingIsLocal(zone: Zone, t: int, d: Date, hour: int, minute: int)
    requires 0 <= hour < 24 && 0 <= minute < 60 && Reads(zone, t, d, hour, minute)
    ensures Local(zone, t) == LocalTime(minute, hour, d.day, d.month, WeekdayOf(d), zone.Fold(t))
  {
    DayOfReading(d);
    hide Civil;
    hide DayNumber;
    hide Zone.Fold;
    hide Zone.OffsetAt;
    hide Local;
    LocalOfDay(zone, t, DayNumber(d), hour, minute);
  }

  lemma DayOfReading(d: Date)
    requires OnCalendar(d)
    ensures Civil(DayNumber(d)) == d
  {
    OnCalendarIsValid(d);
    hide *;
    CivilRoundTrip(d);
  }

  lemma LocalOfDay(zone: Zone, t: int, day: int, hour: int, minute: int)
    requires 0 <= hour < 24 && 0 <= minute < 60
    requires ((day * 24 + hour) * 60 + minute) * 60_000_000 <= Wall(zone, t) < ((day * 24 + hour) * 60 + minute) * 60_000_000 + 60_000_000
    ensures Local(zone, t) == LocalTime(minute, hour, Civil(day).day, Civil(day).month, (day + 1) % 7, zone.Fold(t))
  {
    hide Civil;
    hide Zone.Fold;
    hide Zone.OffsetAt;
    var k := (day * 24 + hour) * 60 + minute;
    var wall := Wall(zone, t);
    DivUnique(wall, MICROS_PER_MINUTE, k, wall - k * MICROS_PER_MINUTE);
    SplitMinute(k, day, hour, minute);
  }

  /** Every instant reads as some date and time. */
  lemma SomeReading(zone: Zone, t: int) returns (d: Date, hour: int, minute: int)
    ensures 0 <= hour < 24 && 0 <= minute < 60 && Reads(zone, t, d, hour, minute)
  {
    var k := Wall(zone, t) / MICROS_PER_MINUTE;
    d, hour, minute := Civil(k / 60 / 24), k / 60 % 24, k % 60;
    OnCalendarIsValid(d);
    hide Civil;
    hide DayNumber;
  }

  lemma DayRule(f: CronFields, d: Date)
    requires ValidFields(f) && OnCalendar(d)
    ensures DayMatches(f, d.day, WeekdayOf(d)) <==> DayListed(f, d)
  {
    assert LengthOfMonth(d.year, d.month) <= 31;
    hide DayNumber;
  }

  /** A cron schedule occurs at the whole minutes whose reading is listed, save those that are marked as repeated. */
  lemma OccursExactly(f: CronFields, zone: Zone, t: int)
    requires ValidFields(f)
    ensures Occurs(Cron(f, zone), t) <==> t % 60_000_000 == 0 && !zone.Fold(t) && ShowsListed(f, zone, t)
  {
    var d, hour, minute := SomeReading(zone, t);
    ReadingIsLocal(zone, t, d, hour, minute);
    DayRule(f, d);
    hide Local;
    hide DayMatches;
    hide DayListed;
    hide Zone.Fold;
    if Listed(f, d, hour, minute) {
      assert ShowsListed(f, zone, t);
    }
    if ShowsListed(f, zone, t) {
      var d', h', m' :| Listed(f, d', h', m') && Reads(zone, t, d', h', m');
      ReadingIsLocal(zone, t, d', h', m');
      DayRule(f, d');
    }
  }

  // ----- Searching -----

  /** The search returns the first minute after the given instant whose reading is listed and not repeated; it raises
      exactly when there is none within 1830 days of 24 hours and a minute. */
  lemma NextShowsListed(f: CronFields, zone: Zone, after: int)
    requires ValidFields(f)
    ensures var end := after / 60_000_000 * 60_000_000 + (1830 * 24 * 60 + 1) * 60_000_000;
            match NextOccurrence(Cron(f, zone), after)
            case Raised => forall u | after < u < end && u % 60_000_000 == 0 && !zone.Fold(u) :: !ShowsListed(f, zone, u)
            case Ok(None) => false
            case Ok(Some(t)) =>
              && after < t < end && t % 60_000_000 == 0 && !zone.Fold(t) && ShowsListed(f, zone, t)
              && forall u | after < u < t && u % 60_000_000 == 0 && !zone.Fold(u) :: !ShowsListed(f, zone, u)
  {
    hide Occurs;
    hide Zone.Fold;
    hide ShowsListed;
    hide NextOccurrence;
    NextIsLeast(Cron(f, zone), after);
    NeverNothing(f, zone, after);
    forall u ensures Occurs(Cron(f, zone), u) <==> u % 60_000_000 == 0 && !zone.Fold(u) && ShowsListed(f, zone, u) {
      OccursExactly(f, zone, u);
    }
  }

  lemma NeverNothing(f: CronFields, zone: Zone, after: int)
    requires ValidFields(f)
    ensures NextOccurrence(Cron(f, zone), after) != Ok(None)
  {
    ScanIsLeast(f, zone, FloorMinute(after) + MICROS_PER_MINUTE, SEARCH_MINUTES);
    hide Scan;
  }

  /** A listed minute of a date in UTC. */
  ghost predicate AtListed(f: CronFields, t: int) {
    exists d: Date, hour: int, minute: int :: Listed(f, d, hour, minute) && t == Moment(d, hour, minute)
  }

  /** The same in UTC, where the instant is the reading. */
  lemma NextUtcOccurrence(f: CronFields, after: int)
    requires ValidFields(f)
    ensures match NextOccurrence(Cron(f, UTC), after)
            case Ok(Some(t)) => after < t && AtListed(f, t) && forall u | after < u < t :: !AtListed(f, u)
            case Ok(None) => false
            case Raised => forall u | after < u < after / 60_000_000 * 60_000_000 + (1830 * 24 * 60 + 1) * 60_000_000 :: !AtListed(f, u)
  {
    NextShowsListed(f, UTC, after);
    hide *;
    forall t ensures AtListed(f, t) <==> t % 60_000_000 == 0 && ShowsListed(f, UTC, t) {
      ListedInUtc(f, t);
    }
    forall t ensures !UTC.Fold(t) {
      NoFoldInUtc(t);
    }
  }

  lemma NoFoldInUtc(t: int)
    ensures !UTC.Fold(t)
  {
  }

  lemma ListedInUtc(f: CronFields, t: int)
    ensures AtListed(f, t) <==> t % 60_000_000 == 0 && ShowsListed(f, UTC, t)
  {
    hide Moment;
    hide DayListed;
    hide OnCalendar;
    if AtListed(f, t) {
      var d, hour, minute :| Listed(f, d, hour, minute) && t == Moment(d, hour, minute);
      MomentReads(t, d, hour, minute);
      hide Reads;
    }
    if t % 60_000_000 == 0 && ShowsListed(f, UTC, t) {
      var d, hour, minute :| Listed(f, d, hour, minute) && Reads(UTC, t, d, hour, minute);
      MomentReads(t, d, hour, minute);
      hide Reads;
    }
  }

  lemma MomentReads(t: int, d: Date, hour: int, minute: int)
    requires OnCalendar(d)
    ensures t == Moment(d, hour, minute) <==> t % 60_000_000 == 0 && Reads(UTC, t, d, hour, minute)
  {
    hide DayNumber;
    var k := (DayNumber(d) * 24 + hour) * 60 + minute;
    DivUnique(Moment(d, hour, minute), 60_000_000, k, 0);
    hide LengthOfMonth;
  }

  /** Catching up in UTC returns the last listed minute after `since` and up to `now`, or none if there is none. */
  lemma CatchUpInUtc(f: CronFields, since: int, now: int)
    requires ValidFields(f) && CatchUp(Cron(f, UTC), since, now).Ok?
    ensures since <= now
    ensures match CatchUp(Cron(f, UTC), since, now).value
            case None => forall u | since < u <= now :: !AtListed(f, u)
            case Some(t) => since < t <= now && AtListed(f, t) && forall u | t < u <= now :: !AtListed(f, u)
  {
    CatchUpIsLatest(Cron(f, UTC), since, now);
    hide Occurs;
    hide AtListed;
    hide CatchUp;
    forall u ensures Occurs(Cron(f, UTC), u) <==> AtListed(f, u) {
      OccursExactly(f, UTC, u);
      NoFoldInUtc(u);
      ListedInUtc(f, u);
      hide ShowsListed;
      hide Zone.Fold;
    }
  }

  // ----- Repeated readings -----

  function Jump(zone: Zone, i: nat): nat
    requires i < |zone.changes|
  {
    var d := zone.OffsetBefore(i) - zone.changes[i].offset;
    if d < 0 then -d else d
  }

  predicate Apart(zone: Zone, i: nat)
    requires i + 1 < |zone.changes|
  {
    zone.changes[i].at < zone.changes[i + 1].at && Jump(zone, i) + Jump(zone, i + 1) <= zone.changes[i + 1].at - zone.changes[i].at
  }

  /** Offset changes in order, further apart than the two of them move the clock. */
  predicate Orderly(zone: Zone) {
    forall i: nat | i + 1 < |zone.changes| :: Apart(zone, i)
  }

  lemma {:induction false} Ordered(zone: Zone, i: nat, j: nat)
    requires Orderly(zone) && i < j < |zone.changes|
    ensures zone.changes[i].at < zone.changes[j].at
    ensures zone.OffsetBefore(i) - zone.changes[j].offset <= zone.changes[j].at - zone.changes[i].at
    decreases j
  {
    assert Apart(zone, j - 1);
    if i < j - 1 {
      Ordered(zone, i, j - 1);
    }
  }

  /** The first `j` changes have happened, the next one has not. */
  predicate InForce(zone: Zone, t: int, j: nat) {
    j <= |zone.changes| && (j > 0 ==> zone.changes[j - 1].at <= t) && (j < |zone.changes| ==> t < zone.changes[j].at)
  }

  lemma {:induction false} OffsetInForce(zone: Zone, t: int, j: nat, n: nat)
    requires Orderly(zone) && InForce(zone, t, j) && j <= n <= |zone.changes|
    ensures zone.OffsetAt(t, n) == zone.OffsetBefore(j)
    decreases n
  {
    if j < n {
      if j < n - 1 {
        Ordered(zone, j, n - 1);
      }
      OffsetInForce(zone, t, j, n - 1);
    }
  }

  lemma {:induction false} SomeInForce(zone: Zone, t: int, n: nat) returns (j: nat)
    requires Orderly(zone) && n <= |zone.changes| && (n < |zone.changes| ==> t < zone.changes[n].at)
    ensures j <= n && InForce(zone, t, j)
    decreases n
  {
    if n == 0 || zone.changes[n - 1].at <= t {
      j := n;
    } else {
      j := SomeInForce(zone, t, n - 1);
    }
  }

  ghost predicate Repeated(zone: Zone, t: int) {
    exists u: int :: u < t && Wall(zone, u) == Wall(zone, t)
  }

  lemma FoldRepeats(zone: Zone, t: int, i: nat)
    requires Orderly(zone) && i < |zone.changes|
    requires zone.changes[i].at <= t < zone.changes[i].at + zone.OffsetBefore(i) - zone.changes[i].offset
    ensures Repeated(zone, t)
  {
    var n := |zone.changes|;
    var u := t - Jump(zone, i);
    if i > 0 {
      assert Apart(zone, i - 1);
    }
    if i + 1 < n {
      assert Apart(zone, i);
    }
    OffsetInForce(zone, u, i, n);
    OffsetInForce(zone, t, i + 1, n);
    assert u < t && Wall(zone, u) == Wall(zone, t);
  }

  lemma RepeatFolds(zone: Zone, u: int, t: int)
    requires Orderly(zone) && u < t && Wall(zone, u) == Wall(zone, t)
    ensures zone.Fold(t)
  {
    var n := |zone.changes|;
    var i := SomeInForce(zone, u, n);
    var j := SomeInForce(zone, t, n);
    OffsetInForce(zone, u, i, n);
    OffsetInForce(zone, t, j, n);
    if j <= i {
      if j < i {
        if j < i - 1 {
          Ordered(zone, j, i - 1);
        }
      }
      assert false;
    } else if i < j - 1 {
      Ordered(zone, i, j - 1);
      assert false;
    } else {
      assert zone.changes[i].at <= t < zone.changes[i].at + zone.OffsetBefore(i) - zone.changes[i].offset;
    }
  }

  /** In an orderly zone an instant is marked as repeated exactly when clocks have shown its reading before. */
  lemma FoldIsRepeat(zone: Zone, t: int)
    requires Orderly(zone)
    ensures zone.Fold(t) <==> Repeated(zone, t)
  {
    if zone.Fold(t) {
      var i :| 0 <= i < |zone.changes| && zone.changes[i].at <= t < zone.changes[i].at + zone.OffsetBefore(i) - zone.changes[i].offset;
      FoldRepeats(zone, t, i);
    }
    if Repeated(zone, t) {
      var u :| u < t && Wall(zone, u) == Wall(zone, t);
      RepeatFolds(zone, u, t);
    }
  }

  /** However often clocks are set back, no reading has two occurrences, and a listed minute occurs the first time
      clocks show it. */
  lemma ReadingsOccurOnce(f: CronFields, zone: Zone, t: int, u: int)
    requires ValidFields(f) && Orderly(zone)
    ensures Occurs(Cron(f, zone), t) && Occurs(Cron(f, zone), u) && Wall(zone, t) == Wall(zone, u) ==> t == u
    ensures t % 60_000_000 == 0 && ShowsListed(f, zone, t) && !Repeated(zone, t) <==> Occurs(Cron(f, zone), t)
  {
    OccursExactly(f, zone, t);
    OccursExactly(f, zone, u);
    FoldIsRepeat(zone, t);
    FoldIsRepeat(zone, u);
    hide Occurs;
    hide ShowsListed;
    hide Zone.Fold;
    hide Wall;
    hide Orderly;
  }

  // ----- Single instants and intervals -----

  /** A single instant is next as long as it lies ahead. */
  lemma NextOnce(at: int, after: int)
    ensures NextOccurrence(Once(at), after) == Ok(if after < at then Some(at) else None)
  {
  }

  /** An interval comes next a whole number of periods after its start, or after the current minute if it has none; the
      period before is over. */
  lemma NextInterval(every: int, startsAt: Option<int>, after: int) returns (origin: int, k: nat)
    requires every > 0
    ensures if startsAt.Some? then origin == startsAt.value else origin % 60_000_000 == 0 && origin <= after < origin + 60_000_000
    ensures NextOccurrence(Interval(every, startsAt), after) == Ok(Some(origin + k * every))
    ensures after < origin + k * every && (k > 0 ==> origin + (k - 1) * every <= after)
  {
    origin := if startsAt.Some? then startsAt.value else FloorMinute(after);
    if after < origin {
      k := 0;
    } else {
      QuotientNonNegative(after - origin, every);
      PeriodsBracket(after - origin, every);
      k := (after - origin) / every + 1;
    }
  }

  lemma OccursAtPeriods(every: int, origin: int, t: int)
    requires every > 0
    ensures Occurs(Interval(every, Some(origin)), t) <==> exists k: nat :: t == origin + k * every
  {
    if Occurs(Interval(every, Some(origin)), t) {
      QuotientNonNegative(t - origin, every);
      PeriodsBracket(t - origin, every);
      var k: nat := (t - origin) / every;
      assert t == origin + k * every;
    }
    if k: nat :| t == origin + k * every {
      DivUnique(t - origin, every, k, 0);
      MulNonNegative(k, every);
    }
  }

  lemma MulNonNegative(k: nat, every: int)
    requires every > 0
    ensures k * every >= 0
  {
  }

  /** Catching up on an interval returns its last period after `since` and up to `now`, or none if there is none. */
  lemma CatchUpInterval(every: int, origin: int, since: int, now: int)
    requires every > 0 && since <= now
    ensures match CatchUp(Interval(every, Some(origin)), since, now)
            case Ok(Some(t)) => since < t <= now && (exists k: nat :: t == origin + k * every) && forall k: nat :: t < origin + k * every ==> now < origin + k * every
            case Ok(None) => forall k: nat :: since < origin + k * every ==> now < origin + k * every
            case Raised => false
  {
    var s := Interval(every, Some(origin));
    IntervalCatchUpIsLatest(s, since, now);
    hide CatchUp;
    hide Occurs;
    forall t ensures Occurs(s, t) <==> exists k: nat :: t == origin + k * every {
      OccursAtPeriods(every, origin, t);
    }
    forall k: nat ensures Occurs(s, origin + k * every) {}
  }
}
