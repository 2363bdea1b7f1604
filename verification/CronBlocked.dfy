/** When claiming a run raises. The claim is one transaction over all jobs, so the first job in the way aborts it for
    every job behind it. */
module CronBlocked {
  import opened Wrappers
  import opened Calendar
  import opened CronSchedule
  import opened CronSearch
  import opened CronLedger
  import opened CronInvariant
  import opened CronTransitions
  import opened CronHistory
  import opened CronGrowth
  import opened CronDues
  import opened CronStuck

  predicate PastEnd(j: Job, now: int) {
    j.endsAt.Some? && now >= j.endsAt.value
  }

  /** The search for what the job owes raises: its bounds are reversed, an interval that ran or was paused has no start,
      or one of the searches of a cron expression on the way finds nothing. */
  ghost predicate CannotTell(j: Job, now: int)
    requires WellFormed(j.schedule)
  {
    var upto := if PastEnd(j, now) then j.endsAt.value - 1 else now;
    match if !PastEnd(j, now) && j.pausedAt.Some? then j.pausedAt else j.lastDue
    case Some(from) => upto < from || !Anchored(j.schedule) || (j.schedule.Cron? && SomeSearchFails(j.schedule, from, upto))
    case None => j.schedule.Cron? && (upto < j.anchor || SomeSearchFails(j.schedule, j.anchor, upto))
  }

  lemma DueRaisesExactly(s: ScheduleSpec, last: Option<int>, upto: int, created: int)
    requires WellFormed(s)
    ensures Due(s, last, upto, created).Raised? <==>
      match last
      case Some(from) => upto < from || !Anchored(s) || (s.Cron? && SomeSearchFails(s, from, upto))
      case None => s.Cron? && (upto < created || SomeSearchFails(s, created, upto))
  {
    CatchUpRaisesExactly(s, if last.Some? then last.value else created, upto);
    hide SomeSearchFails;
    if last.None? && s.Interval? {
      var origin := if s.startsAt.Some? then s.startsAt.value else created;
      if upto >= origin {
        IntervalCatchUpIsLatest(Interval(s.every, Some(origin)), if s.startsAt.Some? then origin - 1 else origin, upto);
      }
      hide IsLatest;
    }
    hide CatchUp;
  }

  /** What a job owes cannot be computed exactly in these cases. */
  lemma OwedRaisesExactly(l: Ledger, job: Id, now: int)
    requires job in l.jobs && WellFormed(l.jobs[job].schedule)
    ensures WhatIsOwed(l, job, now).OwedRaised? <==> CannotTell(l.jobs[job], now)
  {
    hide Due;
    hide CatchUp;
    hide SomeSearchFails;
    hide WellFormed;
    var j := l.jobs[job];
    DueRaisesExactly(j.schedule, j.lastDue, if PastEnd(j, now) then j.endsAt.value - 1 else now, j.anchor);
    if !PastEnd(j, now) && j.pausedAt.Some? {
      CatchUpRaisesExactly(j.schedule, j.pausedAt.value, now);
    }
  }

  // ----- The claim -----

  /** The job makes the claim raise: what it owes cannot be told, or was turned into a run before. */
  ghost predicate Blocks(l: Ledger, job: Id, now: int) {
    && job in l.jobs && WellFormed(l.jobs[job].schedule) && !ActiveRun(l, job)
    && (CannotTell(l.jobs[job], now) || var o := WhatIsOwed(l, job, now); o.Owed? && KeyTaken(l, job, o.due, o.trigger))
  }

  /** The job has a run already, or owes nothing. */
  ghost predicate Passes(l: Ledger, job: Id, now: int) {
    job in l.jobs && WellFormed(l.jobs[job].schedule) && (ActiveRun(l, job) || WhatIsOwed(l, job, now).Nothing?)
  }

  ghost predicate StopsAt(l: Ledger, scan: seq<Id>, now: int, i: nat) {
    i < |scan| && Blocks(l, scan[i], now) && forall k | 0 <= k < i :: Passes(l, scan[k], now)
  }

  /** Some job makes the claim raise before any job is found that owes a run. */
  ghost predicate Stops(l: Ledger, scan: seq<Id>, now: int) {
    exists i: nat :: StopsAt(l, scan, now, i)
  }

  /** The active jobs, each once, in any order. */
  ghost predicate ListsActive(l: Ledger, rows: seq<Id>) {
    && (forall i | 0 <= i < |rows| :: rows[i] in l.jobs && l.jobs[rows[i]].status == Active)
    && (forall i, k | 0 <= i < k < |rows| :: rows[i] != rows[k])
  }

  ghost predicate ListsPending(l: Ledger, rows: seq<Id>, now: int) {
    && (forall i | 0 <= i < |rows| :: Claimable(l, rows[i], now))
    && (forall r | Claimable(l, r, now) :: r in rows)
  }

  lemma SameRunsActive(l: Ledger, l': Ledger, job: Id)
    requires l'.runs == l.runs && l'.deliveries == l.deliveries
    ensures ActiveRun(l', job) == ActiveRun(l, job)
  {
    assert forall r :: Busy(l', r) == Busy(l, r);
  }

  lemma SameKeys(l: Ledger, l': Ledger, job: Id)
    requires l'.runs == l.runs
    ensures forall due, trigger :: KeyTaken(l', job, due, trigger) == KeyTaken(l, job, due, trigger)
  {
  }

  /** A job is judged by its own row and by what runs there are. */
  lemma JudgedLocally(l: Ledger, l': Ledger, job: Id, now: int)
    requires l'.runs == l.runs && l'.deliveries == l.deliveries
    requires job in l.jobs && job in l'.jobs && l'.jobs[job] == l.jobs[job]
    ensures Blocks(l', job, now) == Blocks(l, job, now) && Passes(l', job, now) == Passes(l, job, now)
  {
    SameRunsActive(l, l', job);
    if WellFormed(l.jobs[job].schedule) {
      OwedLocally(l, l', job, now);
    }
    SameKeys(l, l', job);
    hide ActiveRun;
    hide KeyTaken;
    hide WhatIsOwed;
    hide CannotTell;
    hide WellFormed;
  }

  lemma OwedLocally(l: Ledger, l': Ledger, job: Id, now: int)
    requires job in l.jobs && job in l'.jobs && l'.jobs[job] == l.jobs[job] && WellFormed(l.jobs[job].schedule)
    ensures var a := WhatIsOwed(l, job, now); var b := WhatIsOwed(l', job, now);
      && (a.Nothing? <==> b.Nothing?) && (a.Owed? <==> b.Owed?) && (a.Owed? ==> b.due == a.due && b.trigger == a.trigger)
  {
    hide Due;
    hide CatchUp;
    hide WellFormed;
    hide EndedJob;
    hide SetJob;
  }

  lemma StopsLater(l: Ledger, l': Ledger, scan: seq<Id>, now: int)
    requires scan != [] && Passes(l, scan[0], now) && !Blocks(l, scan[0], now)
    requires forall k | 1 <= k < |scan| :: Blocks(l', scan[k], now) == Blocks(l, scan[k], now) && Passes(l', scan[k], now) == Passes(l, scan[k], now)
    ensures Stops(l, scan, now) <==> Stops(l', scan[1..], now)
  {
    hide Blocks;
    hide Passes;
    if Stops(l, scan, now) {
      var i: nat :| StopsAt(l, scan, now, i);
      forall k | 0 <= k < i - 1 ensures Passes(l', scan[1..][k], now) {
        assert Passes(l, scan[k + 1], now);
      }
      assert StopsAt(l', scan[1..], now, i - 1);
    }
    if Stops(l', scan[1..], now) {
      var i: nat :| StopsAt(l', scan[1..], now, i);
      forall k | 0 <= k < i + 1 ensures Passes(l, scan[k], now) {
        if k > 0 {
          assert Passes(l', scan[1..][k - 1], now);
        }
      }
      assert scan[1..][i] == scan[i + 1];
      assert StopsAt(l, scan, now, i + 1);
    }
  }

  lemma StopsHere(l: Ledger, scan: seq<Id>, now: int)
    requires scan != [] && !Passes(l, scan[0], now)
    ensures Stops(l, scan, now) <==> Blocks(l, scan[0], now)
  {
    hide Blocks;
    hide Passes;
    if Blocks(l, scan[0], now) {
      assert StopsAt(l, scan, now, 0);
    }
  }

  lemma StartAbortsExactly(l: Ledger, job: Id, due: int, trigger: Trigger, now: int, until: int, id: Id, token: Id)
    requires job in l.jobs && WellFormed(l.jobs[job].schedule) && id !in l.runs
    requires trigger == ByLifecycle || HasNext(l.jobs[job].schedule, due)
    ensures StartRun(l, job, due, trigger, now, until, id, token).Aborted? <==> KeyTaken(l, job, due, trigger)
  {
    hide KeyTaken;
    hide NextOccurrence;
  }

  lemma OwedIsByOccurrence(l: Ledger, job: Id, now: int)
    requires job in l.jobs && WellFormed(l.jobs[job].schedule)
    ensures var o := WhatIsOwed(l, job, now); o.Owed? ==>
      && (o.trigger == ByLifecycle || HasNext(o.ledger.jobs[job].schedule, o.due))
      && KeyTaken(o.ledger, job, o.due, o.trigger) == KeyTaken(l, job, o.due, o.trigger)
  {
    OwedContinues(l, job, now);
    OwedCases(l, job, now);
    OwedTriggers(l, job, now);
    hide WhatIsOwed;
    hide HasNext;
    hide WellFormed;
  }

  lemma OwedTriggers(l: Ledger, job: Id, now: int)
    requires job in l.jobs && WellFormed(l.jobs[job].schedule)
    ensures var o := WhatIsOwed(l, job, now); o.Owed? ==> o.trigger == ByLifecycle || ByOccurrence(o.trigger)
  {
    hide Due;
    hide CatchUp;
  }

  lemma {:induction false} ClaimJobsAborts(l: Ledger, scan: seq<Id>, now: int, until: int, id: Id, token: Id)
    requires Inv(l) && SchedulesValid(l) && ListsActive(l, scan) && id !in l.runs
    ensures ClaimJobs(l, scan, now, until, id, token).Aborted? <==> Stops(l, scan, now)
    decreases |scan|
  {
    hide StopsAt;
    hide WhatIsOwed;
    hide ActiveRun;
    hide StartRun;
    hide KeyTaken;
    hide CannotTell;
    if scan == [] {
      NothingStops(l, now);
    } else {
      var job := scan[0];
      OwedRaisesExactly(l, job, now);
      hide Stops;
      if ActiveRun(l, job) {
        ListsRest(l, l, scan);
        ClaimJobsAborts(l, scan[1..], now, until, id, token);
        StopsLater(l, l, scan, now);
      } else {
        OwedKeeps(l, job, now);
        OwedCases(l, job, now);
        OwedIsByOccurrence(l, job, now);
        hide WellFormed;
        hide Inv;
        match WhatIsOwed(l, job, now)
        case OwedRaised => StopsHere(l, scan, now);
        case Nothing(l') =>
          ListsRest(l, l', scan);
          ClaimJobsAborts(l', scan[1..], now, until, id, token);
          RestJudgedLocally(l, l', scan, now);
          StopsLater(l, l', scan, now);
        case Owed(l', due, trigger) =>
          StopsHere(l, scan, now);
          StartAbortsExactly(l', job, due, trigger, now, until, id, token);
      }
    }
  }

  lemma NothingStops(l: Ledger, now: int)
    ensures !Stops(l, [], now)
  {
  }

  lemma ListsRest(l: Ledger, l': Ledger, scan: seq<Id>)
    requires ListsActive(l, scan) && scan != [] && (l' == l || (scan[0] in l.jobs && l' == SetJob(l, scan[0], l.jobs[scan[0]].(pausedAt := None))))
    ensures ListsActive(l', scan[1..])
  {
  }

  lemma RestJudgedLocally(l: Ledger, l': Ledger, scan: seq<Id>, now: int)
    requires ListsActive(l, scan) && scan != [] && (l' == l || (scan[0] in l.jobs && l' == SetJob(l, scan[0], l.jobs[scan[0]].(pausedAt := None))))
    ensures forall k | 1 <= k < |scan| :: Blocks(l', scan[k], now) == Blocks(l, scan[k], now) && Passes(l', scan[k], now) == Passes(l, scan[k], now)
  {
    hide Blocks;
    hide Passes;
    forall k | 1 <= k < |scan| ensures Blocks(l', scan[k], now) == Blocks(l, scan[k], now) && Passes(l', scan[k], now) == Passes(l, scan[k], now) {
      JudgedLocally(l, l', scan[k], now);
    }
  }

  /** The first waiting run keeps the claim from answering: the content of its job was erased, or it is a manual run, of
      a job with an end, in a gap of its schedule. */
  ghost predicate PendingBlocks(l: Ledger, run: Id)
    requires run in l.runs
  {
    && l.runs[run].job in l.jobs
    && var j := l.jobs[l.runs[run].job];
    || j.content.Redacted?
    || (l.runs[run].trigger == Manually && j.endsAt.Some? && !HasNext(j.schedule, l.runs[run].scheduledFor))
  }

  lemma ClaimPendingAborts(l: Ledger, pending: seq<Id>, now: int, until: int, token: Id)
    requires Inv(l) && RunsContinue(l) && ListsPending(l, pending, now) && pending != []
    ensures ClaimPending(l, pending, now, until, token).Aborted? <==> PendingBlocks(l, pending[0])
    ensures ClaimPending(l, pending, now, until, token).Committed? ==> ClaimPending(l, pending, now, until, token).value.Some?
  {
    var row := l.runs[pending[0]];
    assert RunOpen(row.status) && Continues(l, row) && Permits(l.jobs[row.job], row);
    assert WellFormed(l.jobs[row.job].schedule);
    hide Inv;
    hide NextOccurrence;
    hide RunsContinue;
    hide ListsPending;
  }

  /** When a claim raises, for any order in which its queries list the rows: with waiting runs, exactly when the first
      is one of those two; otherwise exactly when some active job makes it raise before any job is found that owes a
      run. Then nothing at all is claimed. */
  lemma ClaimAbortsExactly(l: Ledger, pending: seq<Id>, active: seq<Id>, now: int, until: int, id: Id, token: Id)
    requires Inv(l) && RunsContinue(l) && id !in l.runs && ListsPending(l, pending, now) && ListsActive(l, active)
    ensures SchedulesValid(l)
    ensures ClaimDueRun(l, pending, active, now, until, id, token).Aborted? <==>
            if pending != [] then PendingBlocks(l, pending[0]) else Stops(l, active, now)
  {
    assert SchedulesValid(l);
    if pending != [] {
      ClaimPendingAborts(l, pending, now, until, token);
      hide ClaimPending;
      hide Inv;
    } else {
      ClaimJobsAborts(l, active, now, until, id, token);
      hide Inv;
      hide Stops;
      hide ClaimJobs;
    }
    hide PendingBlocks;
  }

  /** In every reachable ledger the condition on waiting runs applies. */
  lemma ReachableRunsContinue(events: seq<Event>)
    ensures Inv(EMPTY)
    ensures RunsContinue(Play(EMPTY, events))
  {
    assert Inv(EMPTY);
    PlayGrows(EMPTY, events);
    GrowthContinues(EMPTY, Play(EMPTY, events));
    hide *;
  }

  // ----- Two jobs that block every other -----

  /** A job for every 29 February blocks the claim from 29 February 2096 on. */
  lemma LeapDayJobsBlock(l: Ledger, job: Id, now: int)
    requires job in l.jobs && l.jobs[job].schedule == Cron(LEAP_MIDNIGHT, UTC) && !ActiveRun(l, job)
    requires !PastEnd(l.jobs[job], now) && l.jobs[job].pausedAt.None?
    requires LAST_LEAP_DAY <= now && (if l.jobs[job].lastDue.Some? then l.jobs[job].lastDue.value else l.jobs[job].anchor) <= LAST_LEAP_DAY
    ensures Blocks(l, job, now)
  {
    FiveYearsAreNotEnough();
    hide NextOccurrence;
    hide Occurs;
    hide ValidFields;
    hide ActiveRun;
    hide DayNumber;
    var j := l.jobs[job];
    var from := if j.lastDue.Some? then j.lastDue.value else j.anchor;
    assert SearchPoint(j.schedule, from, now, LAST_LEAP_DAY);
    assert SomeSearchFails(j.schedule, from, now);
    hide SomeSearchFails;
    hide KeyTaken;
    hide WhatIsOwed;
  }

  /** An interval job without a start blocks the claim as soon as it has run or been paused. */
  lemma UnanchoredJobsBlock(l: Ledger, job: Id, now: int)
    requires job in l.jobs && l.jobs[job].schedule.Interval? && l.jobs[job].schedule.startsAt.None? && WellFormed(l.jobs[job].schedule)
    requires !ActiveRun(l, job) && (l.jobs[job].lastDue.Some? || (!PastEnd(l.jobs[job], now) && l.jobs[job].pausedAt.Some?))
    ensures Blocks(l, job, now)
  {
    hide ActiveRun;
    hide SomeSearchFails;
    hide WhatIsOwed;
    hide KeyTaken;
  }

  lemma FirstBlocks(l: Ledger, active: seq<Id>, now: int, until: int)
    requires Inv(l) && RunsContinue(l) && l.runs == map[] && active != [] && ListsActive(l, active) && Blocks(l, active[0], now)
    ensures SchedulesValid(l) && ClaimDueRun(l, [], active, now, until, 7, 9).Aborted?
  {
    assert ListsPending(l, [], now);
    assert StopsAt(l, active, now, 0);
    hide *;
    ClaimAbortsExactly(l, [], active, now, until, 7, 9);
    SomeStop(l, active, now, 0);
  }

  lemma SomeStop(l: Ledger, active: seq<Id>, now: int, i: nat)
    requires StopsAt(l, active, now, i)
    ensures Stops(l, active, now)
  {
  }

  lemma EverySecondIsClaimed(l: Ledger, now: int, until: int)
    requires SchedulesValid(l) && 2 in l.jobs && l.jobs[2] == EVERY_SECOND && now >= 0
    requires 7 !in l.runs && forall r | r in l.runs :: l.runs[r].job != 2
    ensures ClaimDueRun(l, [], [2], now, until, 7, 9).Committed? && ClaimDueRun(l, [], [2], now, until, 7, 9).value == Some(7)
  {
    CatchUpContinues(EVERY_SECOND.schedule, -1, now);
    EverySecondIsOwed(now);
    var due := now / 1_000_000 * 1_000_000;
    assert WhatIsOwed(l, 2, now) == Owed(l, due, BySchedule);
    assert !KeyTaken(l, 2, due, BySchedule) && !ActiveRun(l, 2);
    hide CatchUp;
    hide WhatIsOwed;
    hide KeyTaken;
    hide ActiveRun;
    assert StartRun(l, 2, due, BySchedule, now, until, 7, 9).Committed?;
    assert ClaimJobs(l, [2], now, until, 7, 9) == StartRun(l, 2, due, BySchedule, now, until, 7, 9);
  }

  lemma EverySecondIsOwed(now: int)
    requires now >= 0
    ensures CatchUp(EVERY_SECOND.schedule, -1, now) == Ok(Some(now / 1_000_000 * 1_000_000))
  {
  }

  /** Create a job for every 29 February and a job for every second in this century: a claim that comes to the first
      raises exactly from 29 February 2096 on, and then the second is never served, although alone it would be. */
  lemma LeapDayJobBlocksOthers(now: int, until: int)
    requires CENTURY_START <= now
    ensures Inv(EMPTY)
    ensures var l := Play(EMPTY, [Creating(1, LEAP_JOB, CENTURY_START), Creating(2, EVERY_SECOND, 0)]);
      && ListsActive(l, [1, 2]) && ListsPending(l, [], now)
      && (ClaimDueRun(l, [], [1, 2], now, until, 7, 9).Aborted? <==> LAST_LEAP_DAY <= now)
      && ClaimDueRun(l, [], [2], now, until, 7, 9).Committed? && ClaimDueRun(l, [], [2], now, until, 7, 9).value == Some(7)
  {
    TwoJobsAreCreated();
    CenturyIsLate();
    var l := Ledger(map[1 := LEAP_JOB, 2 := EVERY_SECOND], map[], map[]);
    assert ListsActive(l, [1, 2]) && ListsPending(l, [], now) && !ActiveRun(l, 1) && RunsContinue(l);
    assert l.jobs[1] == LEAP_JOB && l.jobs[2] == EVERY_SECOND && !PastEnd(LEAP_JOB, now);
    hide *;
    EverySecondIsClaimed(l, now, until);
    if LAST_LEAP_DAY <= now {
      LeapDayJobsBlock(l, 1, now);
      FirstBlocks(l, [1, 2], now, until);
    } else {
      NothingBlocksBefore(l, now);
      NoneStops(l, [1, 2], now);
      ClaimAbortsExactly(l, [], [1, 2], now, until, 7, 9);
    }
  }

  lemma NothingBlocksBefore(l: Ledger, now: int)
    requires l == Ledger(map[1 := LEAP_JOB, 2 := EVERY_SECOND], map[], map[]) && CENTURY_START <= now < LAST_LEAP_DAY
    ensures forall i | 0 <= i < |[1, 2]| :: !Blocks(l, [1, 2][i], now)
  {
    if SomeSearchFails(LEAP_JOB.schedule, CENTURY_START, now) {
      var p :| SearchPoint(LEAP_JOB.schedule, CENTURY_START, now, p) && NextOccurrence(LEAP_JOB.schedule, p).Raised?;
      LeapMidnightIsFoundBefore(p);
    }
    assert forall job, due, trigger :: !KeyTaken(l, job, due, trigger);
    hide KeyTaken;
    hide WhatIsOwed;
    hide ActiveRun;
    hide SomeSearchFails;
    hide WellFormed;
    hide NextOccurrence;
    hide DayNumber;
    assert !CannotTell(l.jobs[1], now) && !CannotTell(l.jobs[2], now);
    hide CannotTell;
  }

  lemma NoneStops(l: Ledger, scan: seq<Id>, now: int)
    requires forall i | 0 <= i < |scan| :: !Blocks(l, scan[i], now)
    ensures !Stops(l, scan, now)
  {
    hide Blocks;
    hide Passes;
  }

  lemma CenturyIsLate()
    ensures 0 < CENTURY_START < LAST_LEAP_DAY
  {
  }

  lemma TwoJobsAreCreated()
    ensures Inv(EMPTY)
    ensures Play(EMPTY, [Creating(1, LEAP_JOB, CENTURY_START), Creating(2, EVERY_SECOND, 0)]) == Ledger(map[1 := LEAP_JOB, 2 := EVERY_SECOND], map[], map[])
  {
    assert Inv(EMPTY);
    LeapJobIsCreated();
    LeapMidnightIsValid();
    SecondJobIsCreated(LEAP_JOB);
    hide *;
    PlayPath(EMPTY, [Creating(1, LEAP_JOB, CENTURY_START), Creating(2, EVERY_SECOND, 0)],
             [EMPTY, Ledger(map[1 := LEAP_JOB], map[], map[]), Ledger(map[1 := LEAP_JOB, 2 := EVERY_SECOND], map[], map[])]);
  }

  lemma SecondJobIsCreated(first: Job)
    requires WellFormed(first.schedule)
    ensures Leads(Ledger(map[1 := first], map[], map[]), Creating(2, EVERY_SECOND, 0), Ledger(map[1 := first, 2 := EVERY_SECOND], map[], map[]))
  {
    EverySecondIsValid();
    hide Blank;
    assert map[1 := first][2 := EVERY_SECOND] == map[1 := first, 2 := EVERY_SECOND];
  }

  /** An interval job that never said when to start. */
  const UNANCHORED := EVERY_SECOND.(schedule := Interval(1_000_000, None))

  /** The same after pausing and resuming an interval job without a start. */
  lemma UnanchoredJobBlocksOthers(now: int, until: int)
    requires now >= 1
    ensures Inv(EMPTY)
    ensures var l := Play(EMPTY, [Creating(1, UNANCHORED, 0), Creating(2, EVERY_SECOND, 0), Changing(0, 1, 1, Paused, 1), Changing(0, 1, 2, Active, 1)]);
      && ListsActive(l, [1, 2]) && ListsPending(l, [], now)
      && ClaimDueRun(l, [], [1, 2], now, until, 7, 9).Aborted?
      && ClaimDueRun(l, [], [2], now, until, 7, 9).Committed? && ClaimDueRun(l, [], [2], now, until, 7, 9).value == Some(7)
  {
    UnanchoredIsResumed();
    var l := Ledger(map[1 := RESUMED, 2 := EVERY_SECOND], map[], map[]);
    assert ListsActive(l, [1, 2]) && ListsPending(l, [], now) && !ActiveRun(l, 1) && RunsContinue(l);
    assert l.jobs[1] == RESUMED && l.jobs[2] == EVERY_SECOND && !PastEnd(RESUMED, now) && WellFormed(RESUMED.schedule);
    hide *;
    UnanchoredJobsBlock(l, 1, now);
    FirstBlocks(l, [1, 2], now, until);
    EverySecondIsClaimed(l, now, until);
  }

  const PAUSED := UNANCHORED.(status := Paused, revision := 2, pausedAt := Some(1))
  const RESUMED := UNANCHORED.(revision := 3, pausedAt := Some(1))

  lemma UnanchoredIsResumed()
    ensures Inv(EMPTY)
    ensures Play(EMPTY, [Creating(1, UNANCHORED, 0), Creating(2, EVERY_SECOND, 0), Changing(0, 1, 1, Paused, 1), Changing(0, 1, 2, Active, 1)])
         == Ledger(map[1 := RESUMED, 2 := EVERY_SECOND], map[], map[])
  {
    assert Inv(EMPTY);
    UnanchoredIsCreated();
    SecondJobIsCreated(UNANCHORED);
    StatusIsChanged(UNANCHORED, Paused, PAUSED);
    StatusIsChanged(PAUSED, Active, RESUMED);
    hide *;
    PlayPath(EMPTY, [Creating(1, UNANCHORED, 0), Creating(2, EVERY_SECOND, 0), Changing(0, 1, 1, Paused, 1), Changing(0, 1, 2, Active, 1)],
             [EMPTY, Ledger(map[1 := UNANCHORED], map[], map[]), Ledger(map[1 := UNANCHORED, 2 := EVERY_SECOND], map[], map[]),
              Ledger(map[1 := PAUSED, 2 := EVERY_SECOND], map[], map[]), Ledger(map[1 := RESUMED, 2 := EVERY_SECOND], map[], map[])]);
  }

  lemma UnanchoredIsCreated()
    ensures Leads(EMPTY, Creating(1, UNANCHORED, 0), Ledger(map[1 := UNANCHORED], map[], map[]))
  {
    EverySecondIsValid();
    hide Blank;
  }

  lemma StatusIsChanged(a: Job, status: JobStatus, b: Job)
    requires WellFormed(a.schedule) && a.owner == 0 && !Terminal(a.status) && (status == Paused || status == Active)
    requires b == ChangedJob(a, status, 1)
    ensures Leads(Ledger(map[1 := a, 2 := EVERY_SECOND], map[], map[]), Changing(0, 1, a.revision, status, 1),
                  Ledger(map[1 := b, 2 := EVERY_SECOND], map[], map[]))
  {
    var l := Ledger(map[1 := a, 2 := EVERY_SECOND], map[], map[]);
    assert !HasSending(l, 1);
    var l' := Apply(l, Changing(0, 1, a.revision, status, 1));
    assert l'.jobs == map[1 := b, 2 := EVERY_SECOND];
    assert l'.runs == map[] && l'.deliveries == map[];
  }
}
