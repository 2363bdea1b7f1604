/** Schedule arithmetic: the next occurrence after an instant, and catching up on missed ones.
    Instants are integer microseconds since 0001-01-01T00:00 UTC. */
module CronSchedule {
  import opened Wrappers
  import opened Calendar

  const MICROS_PER_MINUTE := 60_000_000
  const SEARCH_MINUTES := 5 * 366 * 24 * 60

  /** From `at` on, local time is UTC plus `offset` (both in microseconds). */
  datatype OffsetChange = OffsetChange(at: int, offset: int)

  /** A time zone: its offset before the first change, and its offset changes in order. */
  datatype Zone = Zone(base: int, changes: seq<OffsetChange>) {
    function OffsetBefore(i: nat): int
      requires i <= |changes|
    {
      if i == 0 then base else changes[i - 1].offset
    }

    function OffsetAt(t: int, i: nat): int
      requires i <= |changes|
    {
      if i == 0 then base
      else if changes[i - 1].at <= t then changes[i - 1].offset
      else OffsetAt(t, i - 1)
    }

    /** The second pass over local times that a backward change repeats. */
    predicate Fold(t: int) {
      exists i | 0 <= i < |changes| :: changes[i].at <= t < changes[i].at + OffsetBefore(i) - changes[i].offset
    }
  }

  const UTC := Zone(0, [])

  datatype LocalTime = LocalTime(minute: int, hour: int, day: int, month: int, weekday: int, fold: bool)

  /** The wall clock of `zone` at instant `t`; weekday 0 is Sunday. */
  function Local(zone: Zone, t: int): LocalTime {
    var minute := (t + zone.OffsetAt(t, |zone.changes|)) / MICROS_PER_MINUTE;
    var date := Civil(minute / 1440);
    LocalTime(minute % 60, minute / 60 % 24, date.day, date.month, (minute / 1440 + 1) % 7, zone.Fold(t))
  }

  datatype CronFields = CronFields(
    minutes: set<int>, hours: set<int>, days: set<int>, months: set<int>, weekdays: set<int>,
    dayIsWildcard: bool, weekdayIsWildcard: bool)

  predicate InRange(values: set<int>, low: int, high: int) {
    values != {} && forall v | v in values :: low <= v <= high
  }

  /** What the expression parser guarantees of the fields it returns. */
  predicate ValidFields(f: CronFields) {
    && InRange(f.minutes, 0, 59) && InRange(f.hours, 0, 23) && InRange(f.days, 1, 31)
    && InRange(f.months, 1, 12) && InRange(f.weekdays, 0, 6)
    && (f.dayIsWildcard ==> forall d | 1 <= d <= 31 :: d in f.days)
    && (f.weekdayIsWildcard ==> forall w | 0 <= w <= 6 :: w in f.weekdays)
  }

  datatype ScheduleSpec =
    | Once(at: int)
    | Interval(every: int, startsAt: Option<int>)
    | Cron(fields: CronFields, zone: Zone)

  predicate WellFormed(s: ScheduleSpec) {
    match s
    case Once(_) => true
    case Interval(every, _) => every > 0
    case Cron(fields, _) => ValidFields(fields)
  }

  predicate DayMatches(f: CronFields, day: int, weekday: int) {
    if f.dayIsWildcard then weekday in f.weekdays
    else if f.weekdayIsWildcard then day in f.days
    else day in f.days || weekday in f.weekdays
  }

  predicate Matches(f: CronFields, zone: Zone, t: int) {
    var local := Local(zone, t);
    && !local.fold
    && local.minute in f.minutes && local.hour in f.hours
    && DayMatches(f, local.day, local.weekday) && local.month in f.months
  }

  function FloorMinute(t: int): int {
    t / MICROS_PER_MINUTE * MICROS_PER_MINUTE
  }

  /** The first of the `n` minutes from `candidate` on that matches. */
  function Scan(f: CronFields, zone: Zone, candidate: int, n: nat): (r: Result<Option<int>>)
    ensures r.Ok? ==> r.value.Some? && r.value.value >= candidate
    decreases n
  {
    if n == 0 then Raised
    else if Matches(f, zone, candidate) then Ok(Some(candidate))
    else Scan(f, zone, candidate + MICROS_PER_MINUTE, n - 1)
  }

  function NextOccurrence(s: ScheduleSpec, after: int): (r: Result<Option<int>>)
    requires WellFormed(s)
    ensures r.Ok? && r.value.Some? ==> r.value.value > after
  {
    match s
    case Once(at) => Ok(if at > after then Some(at) else None)
    case Interval(every, startsAt) =>
      var origin := if startsAt.Some? then startsAt.value else FloorMinute(after);
      if after < origin then Ok(Some(origin))
      else
        PeriodsBracket(after - origin, every);
        Ok(Some(origin + ((after - origin) / every + 1) * every))
    case Cron(fields, zone) => Scan(fields, zone, FloorMinute(after) + MICROS_PER_MINUTE, SEARCH_MINUTES)
  }

  /** Repeated `NextOccurrence` from `from` up to `now`, keeping the last one seen. */
  function Iterate(s: ScheduleSpec, from: int, now: int, latest: Option<int>): Result<Option<int>>
    requires WellFormed(s) && from <= now
    decreases now - from
  {
    match NextOccurrence(s, from)
    case Raised => Raised
    case Ok(None) => Ok(latest)
    case Ok(Some(t)) => if t > now then Ok(latest) else Iterate(s, t, now, Some(t))
  }

  function CatchUp(s: ScheduleSpec, since: int, now: int): Result<Option<int>>
    requires WellFormed(s)
  {
    if now < since then Raised
    else if s.Interval? then
      match s.startsAt
      case None => Raised
      case Some(origin) =>
        if now < origin then Ok(None)
        else
          var firstPeriod := if (since - origin) / s.every + 1 > 0 then (since - origin) / s.every + 1 else 0;
          if origin + firstPeriod * s.every > now then Ok(None)
          else Ok(Some(origin + (now - origin) / s.every * s.every))
    else Iterate(s, since, now, None)
  }

  // ----- What an occurrence is, independently of how it is searched for -----

  predicate Occurs(s: ScheduleSpec, t: int) {
    match s
    case Once(at) => t == at
    case Interval(every, startsAt) => every > 0 && startsAt.Some? && t >= startsAt.value && (t - startsAt.value) % every == 0
    case Cron(fields, zone) => t % MICROS_PER_MINUTE == 0 && Matches(fields, zone, t)
  }

  ghost predicate NoneBetween(s: ScheduleSpec, low: int, high: int) {
    forall t | low < t <= high :: !Occurs(s, t)
  }

  /** `r` is the greatest occurrence in (since, now], or None when there is none. */
  ghost predicate IsLatest(s: ScheduleSpec, since: int, now: int, r: Option<int>) {
    match r
    case None => NoneBetween(s, since, now)
    case Some(t) => since < t <= now && Occurs(s, t) && NoneBetween(s, t, now)
  }

  /** Interval schedules only have well-defined occurrences once anchored. */
  predicate Anchored(s: ScheduleSpec) {
    s.Interval? ==> s.startsAt.Some?
  }

  lemma PeriodsBracket(elapsed: int, every: int)
    requires every > 0
    ensures elapsed / every * every <= elapsed < (elapsed / every + 1) * every
    ensures (elapsed / every + 1) * every == elapsed / every * every + every
  {
    assert elapsed == every * (elapsed / every) + elapsed % every;
  }

  lemma NoMultipleInside(x: int, k: int, every: int)
    requires every > 0 && k * every < x < (k + 1) * every
    ensures x % every != 0
  {
    DivUnique(x, every, k, x - k * every);
  }

  /** Nothing of a well-formed schedule falls strictly between two neighbouring multiples of its period. */
  lemma QuietPeriod(s: ScheduleSpec, k: int)
    requires WellFormed(s) && s.Interval? && s.startsAt.Some?
    ensures NoneBetween(s, s.startsAt.value + k * s.every, s.startsAt.value + (k + 1) * s.every - 1)
    ensures k >= 0 ==> Occurs(s, s.startsAt.value + k * s.every)
  {
    var origin := s.startsAt.value;
    forall t | origin + k * s.every < t <= origin + (k + 1) * s.every - 1
      ensures !Occurs(s, t)
    {
      NoMultipleInside(t - origin, k, s.every);
    }
    if k >= 0 {
      DivUnique(k * s.every, s.every, k, 0);
      assert k * s.every >= 0;
    }
  }

  lemma {:induction false} ScanIsLeast(f: CronFields, zone: Zone, candidate: int, n: nat)
    requires ValidFields(f) && candidate % MICROS_PER_MINUTE == 0
    ensures var s := Cron(f, zone); var end := candidate + n * MICROS_PER_MINUTE;
            match Scan(f, zone, candidate, n)
            case Raised => NoneBetween(s, candidate - 1, end - 1)
            case Ok(r) => r.Some? && candidate <= r.value < end && Occurs(s, r.value) && NoneBetween(s, candidate - 1, r.value - 1)
    decreases n
  {
    hide Matches;
    var s := Cron(f, zone);
    if n > 0 {
      OnlyMinutesOccur(s, candidate);
      if !Matches(f, zone, candidate) {
        ScanIsLeast(f, zone, candidate + MICROS_PER_MINUTE, n - 1);
      }
    }
  }

  lemma OnlyMinutesOccur(s: ScheduleSpec, minute: int)
    requires s.Cron? && minute % MICROS_PER_MINUTE == 0
    ensures forall t | minute < t < minute + MICROS_PER_MINUTE :: !Occurs(s, t)
  {
    hide Matches;
  }

  /** `NextOccurrence` is the least occurrence strictly after `after`; a cron search raises exactly
      when no minute of its window matches. */
  lemma NextIsLeast(s: ScheduleSpec, after: int)
    requires WellFormed(s) && Anchored(s)
    ensures match NextOccurrence(s, after)
            case Raised => s.Cron? && NoneBetween(s, after, FloorMinute(after) + (SEARCH_MINUTES + 1) * MICROS_PER_MINUTE - 1)
            case Ok(None) => forall t | t > after :: !Occurs(s, t)
            case Ok(Some(t)) =>
              t > after && Occurs(s, t) && NoneBetween(s, after, t - 1)
              && (s.Cron? ==> t < FloorMinute(after) + (SEARCH_MINUTES + 1) * MICROS_PER_MINUTE)
  {
    hide Matches;
    match s
    case Once(_) =>
    case Interval(every, startsAt) =>
      var origin := startsAt.value;
      if after < origin {
        QuietPeriod(s, 0);
      } else {
        var k := (after - origin) / every;
        PeriodsBracket(after - origin, every);
        QuietPeriod(s, k);
        assert k >= 0;
        QuietPeriod(s, k + 1);
      }
    case Cron(fields, zone) =>
      ScanIsLeast(fields, zone, FloorMinute(after) + MICROS_PER_MINUTE, SEARCH_MINUTES);
      OnlyMinutesOccur(s, FloorMinute(after));
  }

  lemma {:induction false} IterateIsLatest(s: ScheduleSpec, since: int, from: int, now: int, latest: Option<int>)
    requires WellFormed(s) && Anchored(s) && since <= from <= now
    requires latest == (if from == since then None else Some(from)) && IsLatest(s, since, from, latest)
    ensures Iterate(s, from, now, latest).Ok? ==> IsLatest(s, since, now, Iterate(s, from, now, latest).value)
    decreases now - from
  {
    NextIsLeast(s, from);
    match NextOccurrence(s, from)
    case Ok(Some(t)) =>
      if t <= now {
        IterateIsLatest(s, since, t, now, Some(t));
      }
    case _ =>
  }

  lemma IntervalCatchUpIsLatest(s: ScheduleSpec, since: int, now: int)
    requires WellFormed(s) && s.Interval? && s.startsAt.Some? && since <= now
    ensures CatchUp(s, since, now).Ok? && IsLatest(s, since, now, CatchUp(s, since, now).value)
  {
    var origin, every := s.startsAt.value, s.every;
    if now >= origin {
      var k, j := (now - origin) / every, (since - origin) / every;
      var last, before, next := PeriodFacts(every, since - origin, now - origin);
      QuietPeriod(s, k);
      QuietPeriod(s, j);
      LatestPeriod(s, since, now, origin + last, origin + before, origin + next, j + 1 > 0);
    }
  }

  /** The multiples of the period at or before `now`, at or before `since`, and just after `since`. */
  lemma PeriodFacts(every: int, since: int, now: int) returns (last: int, before: int, next: int)
    requires every > 0 && since <= now && now >= 0
    ensures now / every >= 0 && last == now / every * every && last <= now < last + every
    ensures (now / every + 1) * every == last + every
    ensures before == since / every * every && next == (since / every + 1) * every
    ensures before <= since < next && next == before + every
    ensures since / every + 1 <= 0 ==> next <= 0
    ensures next <= now ==> next <= last
  {
    PeriodsBracket(now, every);
    PeriodsBracket(since, every);
    Signs(since / every + 1, every);
    QuotientNonNegative(now, every);
    NextMultiple(since, now, every);
    last, before, next := now / every * every, since / every * every, (since / every + 1) * every;
  }

  lemma QuotientNonNegative(now: int, every: int)
    requires every > 0 && now >= 0
    ensures now / every >= 0
  {
  }

  lemma NextMultiple(since: int, now: int, every: int)
    requires every > 0
    ensures (since / every + 1) * every <= now ==> (since / every + 1) * every <= now / every * every
  {
    PeriodsBracket(now, every);
    if (since / every + 1) * every <= now {
      MulOrder(since / every + 1, now / every, every);
    }
  }

  lemma Signs(k: int, every: int)
    requires every > 0
    ensures k <= 0 ==> k * every <= 0
  {
  }

  /** The answer, from the multiples of the period around `now` and around `since`. */
  lemma LatestPeriod(s: ScheduleSpec, since: int, now: int, last: int, before: int, next: int, started: bool)
    requires s.Interval? && s.startsAt.Some? && s.startsAt.value <= now
    requires Occurs(s, last) && NoneBetween(s, last, now) && last <= now
    requires before <= since < next && NoneBetween(s, before, next - 1)
    requires !started ==> next <= s.startsAt.value
    requires next <= now ==> next <= last
    ensures IsLatest(s, since, now, if started && next > now then None else Some(last))
  {
    assert last >= s.startsAt.value;
    hide Occurs;
  }

  /** For integers, a lower multiple below `(k + 1) * every` is at most `k * every`. */
  lemma MulOrder(j: int, k: int, every: int)
    requires every > 0 && j * every < (k + 1) * every
    ensures j <= k && j * every <= k * every
  {
    var d := j - k - 1;
    assert j * every == (k + 1) * every + d * every;
    assert d >= 0 ==> d * every >= 0;
    assert k * every == j * every + (k - j) * every;
  }

  /** Catching up yields the greatest occurrence in (since, now], or none, whenever it does not raise. */
  lemma CatchUpIsLatest(s: ScheduleSpec, since: int, now: int)
    requires WellFormed(s)
    ensures CatchUp(s, since, now).Ok? ==> Anchored(s) && since <= now && IsLatest(s, since, now, CatchUp(s, since, now).value)
  {
    if since <= now && Anchored(s) {
      if s.Interval? {
        IntervalCatchUpIsLatest(s, since, now);
      } else {
        IterateIsLatest(s, since, since, now, None);
      }
    }
  }

  lemma LatestUnique(s: ScheduleSpec, since: int, now: int, a: Option<int>, b: Option<int>)
    requires IsLatest(s, since, now, a) && IsLatest(s, since, now, b)
    ensures a == b
  {
  }

  lemma {:induction false} IntervalIterateNeverRaises(s: ScheduleSpec, from: int, now: int, latest: Option<int>)
    requires WellFormed(s) && s.Interval? && from <= now
    ensures Iterate(s, from, now, latest).Ok?
    decreases now - from
  {
    match NextOccurrence(s, from)
    case Ok(Some(t)) => if t <= now { IntervalIterateNeverRaises(s, t, now, Some(t)); }
    case _ =>
  }

  /** The interval closed form equals iterating `NextOccurrence`, as the loop does for the other kinds. */
  lemma ClosedFormEqualsIteration(s: ScheduleSpec, since: int, now: int)
    requires WellFormed(s) && s.Interval? && s.startsAt.Some? && since <= now
    ensures CatchUp(s, since, now) == Iterate(s, since, now, None)
  {
    IntervalCatchUpIsLatest(s, since, now);
    IntervalIterateNeverRaises(s, since, now, None);
    IterateIsLatest(s, since, since, now, None);
    LatestUnique(s, since, now, CatchUp(s, since, now).value, Iterate(s, since, now, None).value);
  }

  /** Splitting a catch-up range at any midpoint does not change the answer. */
  lemma CatchUpSplits(s: ScheduleSpec, since: int, mid: int, now: int)
    requires WellFormed(s) && since <= mid <= now
    requires CatchUp(s, since, now).Ok? && CatchUp(s, since, mid).Ok? && CatchUp(s, mid, now).Ok?
    ensures CatchUp(s, since, now).value ==
            if CatchUp(s, mid, now).value.Some? then CatchUp(s, mid, now).value else CatchUp(s, since, mid).value
  {
    hide Occurs;
    hide CatchUp;
    CatchUpIsLatest(s, since, now);
    CatchUpIsLatest(s, since, mid);
    CatchUpIsLatest(s, mid, now);
    var late, early := CatchUp(s, mid, now).value, CatchUp(s, since, mid).value;
    LatestUnique(s, since, now, CatchUp(s, since, now).value, if late.Some? then late else early);
  }

  /** Where an iterated search stands: at the start, or at an occurrence it has passed. */
  ghost predicate SearchPoint(s: ScheduleSpec, since: int, now: int, p: int) {
    p == since || (since < p <= now && Occurs(s, p))
  }

  ghost predicate SomeSearchFails(s: ScheduleSpec, since: int, now: int)
    requires WellFormed(s)
  {
    exists p: int :: SearchPoint(s, since, now, p) && NextOccurrence(s, p).Raised?
  }

  lemma {:induction false} IterateRaises(s: ScheduleSpec, from: int, now: int, latest: Option<int>)
    requires WellFormed(s) && Anchored(s) && from <= now
    ensures Iterate(s, from, now, latest).Raised? <==> SomeSearchFails(s, from, now)
    decreases now - from
  {
    NextIsLeast(s, from);
    match NextOccurrence(s, from)
    case Raised => assert SearchPoint(s, from, now, from);
    case Ok(None) =>
      forall p | SearchPoint(s, from, now, p) ensures p == from {}
    case Ok(Some(t)) =>
      if t <= now {
        IterateRaises(s, t, now, Some(t));
        forall p | SearchPoint(s, t, now, p) ensures SearchPoint(s, from, now, p) {}
        forall p | SearchPoint(s, from, now, p) && p != from ensures SearchPoint(s, t, now, p) {}
      } else {
        forall p | SearchPoint(s, from, now, p) ensures p == from {}
      }
  }

  /** A catch-up raises exactly when its bounds are reversed, an interval has no anchor, or one of the
      searches it starts, from `since` or from an occurrence up to `now`, finds nothing. */
  lemma CatchUpRaisesExactly(s: ScheduleSpec, since: int, now: int)
    requires WellFormed(s)
    ensures CatchUp(s, since, now).Raised? <==>
            now < since || !Anchored(s) || (s.Cron? && SomeSearchFails(s, since, now))
  {
    if since <= now && Anchored(s) {
      if s.Interval? {
        IntervalCatchUpIsLatest(s, since, now);
      } else {
        IterateRaises(s, since, now, None);
      }
    }
  }

  // ----- The loops -----

  method FindNext(f: CronFields, zone: Zone, after: int) returns (r: Result<Option<int>>)
    requires ValidFields(f)
    ensures r == NextOccurrence(Cron(f, zone), after)
  {
    var candidate := FloorMinute(after) + MICROS_PER_MINUTE;
    for i := 0 to SEARCH_MINUTES
      invariant NextOccurrence(Cron(f, zone), after) == Scan(f, zone, candidate, SEARCH_MINUTES - i)
    {
      if Matches(f, zone, candidate) {
        return Ok(Some(candidate));
      }
      candidate := candidate + MICROS_PER_MINUTE;
    }
    return Raised;
  }

  method CatchUpByLoop(s: ScheduleSpec, since: int, now: int) returns (r: Result<Option<int>>)
    requires WellFormed(s) && !s.Interval?
    ensures r == CatchUp(s, since, now)
  {
    if now < since {
      return Raised;
    }
    var occurrence := NextOccurrence(s, since);
    var from, latest := since, None;
    while occurrence.Ok? && occurrence.value.Some? && occurrence.value.value <= now
      invariant from <= now && occurrence == NextOccurrence(s, from)
      invariant CatchUp(s, since, now) == Iterate(s, from, now, latest)
      decreases now - from
    {
      from := occurrence.value.value;
      latest := Some(from);
      occurrence := NextOccurrence(s, from);
    }
    return if occurrence.Raised? then Raised else Ok(latest);
  }
}
