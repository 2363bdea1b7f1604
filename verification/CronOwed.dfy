/** What a job owes, which of its runs is the last, and which run a claim hands out: said of occurrences and stored
    rows, not of the searches and loops that find them. */
module CronOwed {
  import opened Wrappers
  import opened CronSchedule
  import opened CronWallClock
  import opened CronLedger
  import opened CronInvariant
  import opened CronTransitions
  import opened CronHistory
  import opened CronGrowth
  import opened CronBlocked

  // ----- The next occurrence and the last one -----

  /** What may come after `due`: an occurrence, or, for an interval without a start, a period counted from the minute. */
  ghost predicate Comes(s: ScheduleSpec, due: int, t: int) {
    due < t && (if s.Interval? && s.startsAt.None? then exists k: nat :: t == due / 60_000_000 * 60_000_000 + k * s.every else Occurs(s, t))
  }

  lemma NextComes(s: ScheduleSpec, due: int)
    requires WellFormed(s) && NextOccurrence(s, due).Ok?
    ensures match NextOccurrence(s, due).value
            case None => forall t :: !Comes(s, due, t)
            case Some(next) => Comes(s, due, next) && forall t | Comes(s, due, t) :: next <= t
  {
    if Anchored(s) {
      NextIsLeast(s, due);
      hide NextOccurrence;
      hide Occurs;
    } else {
      var origin, k := NextInterval(s.every, s.startsAt, due);
      hide NextOccurrence;
      UnanchoredOrigin(due, origin);
      assert Comes(s, due, origin + k * s.every);
      forall t | Comes(s, due, t) ensures origin + k * s.every <= t {
        var m: nat :| t == origin + m * s.every;
        if m < k {
          FewerPeriods(m, k - 1, s.every);
        } else {
          FewerPeriods(k, m, s.every);
        }
      }
    }
  }

  lemma UnanchoredOrigin(due: int, origin: int)
    requires origin % 60_000_000 == 0 && origin <= due < origin + 60_000_000
    ensures origin == due / 60_000_000 * 60_000_000
  {
  }

  lemma FewerPeriods(a: int, b: int, every: int)
    requires a <= b && every > 0
    ensures a * every <= b * every
  {
  }

  /** Nothing may come after `due` and before the end. */
  ghost predicate LastOne(s: ScheduleSpec, due: int, ends: Option<int>) {
    ends.Some? && forall t | Comes(s, due, t) :: ends.value <= t
  }

  /** A run is the last before the end exactly when nothing may come in between; the question raises exactly when the
      next occurrence cannot be found. */
  lemma LastBeforeMeans(s: ScheduleSpec, due: int, ends: Option<int>)
    requires WellFormed(s)
    ensures LastBefore(s, due, ends).Raised? <==> NextOccurrence(s, due).Raised?
    ensures LastBefore(s, due, ends).Ok? ==> (LastBefore(s, due, ends).value <==> LastOne(s, due, ends))
  {
    if NextOccurrence(s, due).Ok? {
      NextComes(s, due);
    }
    hide Comes;
    hide NextOccurrence;
  }

  /** What a claim says of its run: that the job ends with it exactly for a farewell, a single instant, or the last
      occurrence before the end; it raises exactly when only a search could tell, and that search raises. */
  lemma WillEndMeans(j: Job, due: int, trigger: Trigger)
    requires WellFormed(j.schedule)
    ensures WillEnd(j, due, trigger).Raised? <==> !trigger.ByLifecycle? && j.endsAt.Some? && NextOccurrence(j.schedule, due).Raised?
    ensures WillEnd(j, due, trigger).Ok? ==> (WillEnd(j, due, trigger).value <==> trigger.ByLifecycle? || j.schedule.Once? || LastOne(j.schedule, due, j.endsAt))
  {
    LastBeforeMeans(j.schedule, due, j.endsAt);
    hide LastBefore;
  }

  // ----- What is owed -----

  /** `r` is what a job owes up to an instant: the latest occurrence since the last one that became a run; before any did,
      since the job was created, a start at that very instant included, and a single instant however old. */
  ghost predicate IsOwed(s: ScheduleSpec, last: Option<int>, upto: int, created: int, r: Option<int>) {
    match (last, s)
    case (Some(t), _) => IsLatest(s, t, upto, r)
    case (None, Once(at)) => r == if at <= upto then Some(at) else None
    case (None, Interval(every, Some(start))) => IsLatest(s, start - 1, upto, r)
    case (None, Interval(every, None)) => IsLatest(Interval(every, Some(created)), created, upto, r)
    case (None, Cron(_, _)) => IsLatest(s, created, upto, r)
  }

  lemma DueMeans(s: ScheduleSpec, last: Option<int>, upto: int, created: int)
    requires WellFormed(s) && Due(s, last, upto, created).Ok?
    ensures IsOwed(s, last, upto, created, Due(s, last, upto, created).value)
  {
    hide CatchUp;
    hide Occurs;
    if last.Some? {
      CatchUpIsLatest(s, last.value, upto);
    } else {
      match s
      case Once(_) =>
      case Interval(every, startsAt) =>
        var origin := if startsAt.Some? then startsAt.value else created;
        CatchUpIsLatest(Interval(every, Some(origin)), if startsAt.Some? then origin - 1 else origin, upto);
        StartsAtOrigin(every, origin, upto);
      case Cron(_, _) => CatchUpIsLatest(s, created, upto);
    }
  }

  lemma StartsAtOrigin(every: int, origin: int, upto: int)
    ensures upto < origin ==> NoneBetween(Interval(every, Some(origin)), origin - 1, upto) && NoneBetween(Interval(every, Some(origin)), origin, upto)
  {
  }

  /** What an idle active job owes. Past its end: its last occurrence before the end, or else one farewell run, with which
      the job ends under a new revision. Otherwise, if it was paused, the latest occurrence since; the pause is then
      forgotten, whether there was one or not. Otherwise the latest one since the last run. */
  lemma OwedMeans(l: Ledger, job: Id, now: int)
    requires job in l.jobs && WellFormed(l.jobs[job].schedule)
    ensures var j := l.jobs[job]; var past := j.endsAt.Some? && j.endsAt.value <= now;
            match WhatIsOwed(l, job, now)
            case OwedRaised => true
            case Nothing(l') =>
              && !past && l'.runs == l.runs && l'.deliveries == l.deliveries && l'.jobs == l.jobs[job := j.(pausedAt := None)]
              && if j.pausedAt.Some? then IsLatest(j.schedule, j.pausedAt.value, now, None) else IsOwed(j.schedule, j.lastDue, now, j.anchor, None)
            case Owed(l', due, trigger) =>
              && l'.runs == l.runs && l'.deliveries == l.deliveries
              && match trigger
                 case BySchedule => l'.jobs == l.jobs && (past || j.pausedAt.None?) && IsOwed(j.schedule, j.lastDue, if past then j.endsAt.value - 1 else now, j.anchor, Some(due))
                 case ByCatchup => !past && j.pausedAt.Some? && l'.jobs == l.jobs[job := j.(pausedAt := None)] && IsLatest(j.schedule, j.pausedAt.value, now, Some(due))
                 case ByLifecycle => past && due == now && l'.jobs == l.jobs[job := j.(status := Ended, revision := j.revision + 1)] && IsOwed(j.schedule, j.lastDue, j.endsAt.value - 1, j.anchor, None)
                 case Manually => false
  {
    hide Due;
    hide CatchUp;
    hide IsOwed;
    hide IsLatest;
    var j := l.jobs[job];
    var past := j.endsAt.Some? && j.endsAt.value <= now;
    var upto := if past then j.endsAt.value - 1 else now;
    if (past || j.pausedAt.None?) && Due(j.schedule, j.lastDue, upto, j.anchor).Ok? {
      DueMeans(j.schedule, j.lastDue, upto, j.anchor);
    }
    if !past && j.pausedAt.Some? {
      CatchUpIsLatest(j.schedule, j.pausedAt.value, now);
    }
    hide WellFormed;
    if !past && j.pausedAt.None? {
      assert l.jobs[job := j.(pausedAt := None)] == l.jobs;
    }
  }

  // ----- Which run a claim hands out -----

  /** The run a claim inserted: for what the job owes, of the revision its row then has, leased at once. */
  ghost predicate Started(l: Ledger, l': Ledger, job: Id, o: Owed, now: int, until: int, id: Id, token: Id)
    requires job in l.jobs && o.Owed?
  {
    && id !in l.runs && l'.deliveries == l.deliveries
    && l'.runs == l.runs[id := Run(job, o.due, o.trigger, l.jobs[job].revision + (if o.trigger.ByLifecycle? then 1 else 0), RunLeased, 0, now, Some(until), Some(token), None, None)]
    && job in l'.jobs && l'.jobs[job] == RowAfter(l.jobs[job], o.due, o.trigger)
  }

  function RowAfter(j: Job, due: int, trigger: Trigger): Job {
    match trigger
    case ByLifecycle => j.(status := Ended, revision := j.revision + 1)
    case ByCatchup => j.(pausedAt := None, lastDue := Some(due))
    case _ => j.(lastDue := Some(due))
  }

  lemma StartsRun(l: Ledger, job: Id, now: int, until: int, id: Id, token: Id)
    requires SchedulesValid(l) && job in l.jobs && WhatIsOwed(l, job, now).Owed?
    ensures var o := WhatIsOwed(l, job, now);
      && job in o.ledger.jobs && WellFormed(o.ledger.jobs[job].schedule)
      && var s := StartRun(o.ledger, job, o.due, o.trigger, now, until, id, token);
         s.Committed? ==> s.value == Some(id) && Started(l, s.ledger, job, o, now, until, id, token)
  {
    OwedMeans(l, job, now);
    hide WhatIsOwed;
    hide IsOwed;
    hide IsLatest;
    hide WillEnd;
    hide KeyTaken;
    hide WellFormed;
  }

  /** Of the rows other than `but`, those of these jobs that were idle have forgotten that they were paused; all others
      are as they were. */
  ghost predicate Forgives(l: Ledger, l': Ledger, passed: seq<Id>, but: Option<Id>) {
    l'.jobs.Keys == l.jobs.Keys && forall x | x in l.jobs && Some(x) != but ::
      l'.jobs[x] == if x in passed && !ActiveRun(l, x) then l.jobs[x].(pausedAt := None) else l.jobs[x]
  }

  lemma ForgivesOn(l: Ledger, l1: Ledger, l': Ledger, first: Id, rest: seq<Id>, but: Option<Id>)
    requires l1.runs == l.runs && l1.deliveries == l.deliveries && first !in rest
    requires Forgives(l, l1, [first], None) && Forgives(l1, l', rest, but)
    ensures Forgives(l, l', [first] + rest, but)
  {
    forall x ensures ActiveRun(l1, x) == ActiveRun(l, x) {
      SameRunsActive(l, l1, x);
    }
    hide ActiveRun;
  }

  /** The first job listed that is idle and owes something is the one that gets the run. */
  ghost predicate StartsAt(l: Ledger, l': Ledger, scan: seq<Id>, now: int, until: int, id: Id, token: Id, i: nat) {
    && i < |scan| && (forall k | 0 <= k < i :: Passes(l, scan[k], now))
    && scan[i] in l.jobs && WellFormed(l.jobs[scan[i]].schedule) && !ActiveRun(l, scan[i]) && WhatIsOwed(l, scan[i], now).Owed?
    && Started(l, l', scan[i], WhatIsOwed(l, scan[i], now), now, until, id, token) && Forgives(l, l', scan[..i], Some(scan[i]))
  }

  ghost predicate SameRow(l: Ledger, l1: Ledger, job: Id) {
    job in l.jobs && job in l1.jobs && l1.jobs[job] == l.jobs[job]
  }

  /** Going on to the other jobs: nothing but the row of the first has changed. */
  ghost predicate GoesOn(l: Ledger, l1: Ledger, scan: seq<Id>, now: int) {
    && l1.runs == l.runs && l1.deliveries == l.deliveries && scan != [] && Passes(l, scan[0], now) && scan[0] !in scan[1..]
    && (forall k | 1 <= k < |scan| :: SameRow(l, l1, scan[k])) && Forgives(l, l1, [scan[0]], None)
  }

  lemma StartedLocally(l: Ledger, l1: Ledger, l': Ledger, scan: seq<Id>, now: int, until: int, id: Id, token: Id, i: nat)
    requires GoesOn(l, l1, scan, now)
    requires StartsAt(l1, l', scan[1..], now, until, id, token, i)
    ensures StartsAt(l, l', scan, now, until, id, token, i + 1)
  {
    forall k | 0 <= k < i + 1 ensures Passes(l, scan[k], now) {
      if k > 0 {
        assert SameRow(l, l1, scan[k]) && scan[1..][k - 1] == scan[k];
        JudgedLocally(l, l1, scan[k], now);
      }
    }
    hide Passes;
    assert [scan[0]] + scan[1..][..i] == scan[..i + 1];
    ForgivesOn(l, l1, l', scan[0], scan[1..][..i], Some(scan[i + 1]));
    hide Forgives;
    assert SameRow(l, l1, scan[i + 1]) && scan[1..][i] == scan[i + 1];
    SameRunsActive(l, l1, scan[i + 1]);
    hide ActiveRun;
    OwedLocally(l, l1, scan[i + 1], now);
    hide WhatIsOwed;
    hide WellFormed;
  }

  lemma StartedAlone(l: Ledger, job: Id, now: int, until: int, id: Id, token: Id)
    requires SchedulesValid(l) && job in l.jobs && WhatIsOwed(l, job, now).Owed?
    ensures var o := WhatIsOwed(l, job, now);
      && job in o.ledger.jobs && WellFormed(o.ledger.jobs[job].schedule)
      && var s := StartRun(o.ledger, job, o.due, o.trigger, now, until, id, token);
         s.Committed? ==> Forgives(l, s.ledger, [], Some(job))
  {
    OwedMeans(l, job, now);
    hide WhatIsOwed;
    hide IsOwed;
    hide IsLatest;
    hide WillEnd;
    hide KeyTaken;
    hide WellFormed;
    hide ActiveRun;
  }

  lemma {:induction false} ClaimJobsStarts(l: Ledger, scan: seq<Id>, now: int, until: int, id: Id, token: Id)
    requires SchedulesValid(l) && ListsActive(l, scan)
    ensures match ClaimJobs(l, scan, now, until, id, token)
            case Aborted => true
            case Committed(l', None) => l'.runs == l.runs && l'.deliveries == l.deliveries && Forgives(l, l', scan, None) && forall k | 0 <= k < |scan| :: Passes(l, scan[k], now)
            case Committed(l', Some(r)) => r == id && exists i: nat :: StartsAt(l, l', scan, now, until, id, token, i)
    decreases |scan|
  {
    if scan != [] {
      if ActiveRun(l, scan[0]) {
        ClaimJobsStarts(l, scan[1..], now, until, id, token);
        PassOn(l, l, scan, now, until, id, token);
      } else {
        OwedMeans(l, scan[0], now);
        match WhatIsOwed(l, scan[0], now)
        case OwedRaised =>
        case Nothing(l1) =>
          hide IsOwed;
          hide IsLatest;
          ClaimJobsStarts(l1, scan[1..], now, until, id, token);
          PassOn(l, l1, scan, now, until, id, token);
        case Owed(l1, due, trigger) =>
          StartsRun(l, scan[0], now, until, id, token);
          hide StartRun;
          hide IsOwed;
          hide IsLatest;
          hide Started;
          var s := StartRun(l1, scan[0], due, trigger, now, until, id, token);
          if s.Committed? {
            assert Forgives(l, s.ledger, scan[..0], Some(scan[0])) by { StartedAlone(l, scan[0], now, until, id, token); }
            assert StartsAt(l, s.ledger, scan, now, until, id, token, 0);
          }
      }
    }
  }

  lemma PassOn(l: Ledger, l1: Ledger, scan: seq<Id>, now: int, until: int, id: Id, token: Id)
    requires SchedulesValid(l1) && GoesOn(l, l1, scan, now)
    requires match ClaimJobs(l1, scan[1..], now, until, id, token)
             case Aborted => true
             case Committed(l', None) => l'.runs == l1.runs && l'.deliveries == l1.deliveries && Forgives(l1, l', scan[1..], None) && forall k | 0 <= k < |scan| - 1 :: Passes(l1, scan[1..][k], now)
             case Committed(l', Some(r)) => r == id && exists i: nat :: StartsAt(l1, l', scan[1..], now, until, id, token, i)
    ensures match ClaimJobs(l1, scan[1..], now, until, id, token)
            case Aborted => true
            case Committed(l', None) => l'.runs == l.runs && l'.deliveries == l.deliveries && Forgives(l, l', scan, None) && forall k | 0 <= k < |scan| :: Passes(l, scan[k], now)
            case Committed(l', Some(r)) => r == id && exists i: nat :: StartsAt(l, l', scan, now, until, id, token, i)
  {
    hide Passes;
    hide StartsAt;
    match ClaimJobs(l1, scan[1..], now, until, id, token)
    case Aborted =>
    case Committed(l', None) =>
      assert [scan[0]] + scan[1..] == scan;
      ForgivesOn(l, l1, l', scan[0], scan[1..], None);
      hide Forgives;
      forall k | 1 <= k < |scan| ensures Passes(l, scan[k], now) {
        assert SameRow(l, l1, scan[k]) && scan[1..][k - 1] == scan[k];
        JudgedLocally(l, l1, scan[k], now);
      }
    case Committed(l', Some(r)) =>
      var i: nat :| StartsAt(l1, l', scan[1..], now, until, id, token, i);
      StartedLocally(l, l1, l', scan, now, until, id, token, i);
  }

  /** Which run a claim hands out, for any order in which its queries list the rows: with waiting runs, the first one,
      and nothing else changes; otherwise a new one of the first idle job that owes one; and none exactly when no run
      waits and no idle job owes one. */
  lemma ClaimHandsOut(l: Ledger, pending: seq<Id>, active: seq<Id>, now: int, until: int, id: Id, token: Id)
    requires Inv(l) && ListsPending(l, pending, now) && ListsActive(l, active)
    ensures SchedulesValid(l)
    ensures match ClaimDueRun(l, pending, active, now, until, id, token)
            case Aborted => true
            case Committed(l', None) =>
              && pending == [] && (forall k | 0 <= k < |active| :: Passes(l, active[k], now))
              && l'.runs == l.runs && l'.deliveries == l.deliveries && Forgives(l, l', active, None)
            case Committed(l', Some(r)) =>
              if pending == [] then r == id && exists i: nat :: StartsAt(l, l', active, now, until, id, token, i)
              else
                && r == pending[0] && r in l.runs && l'.jobs == l.jobs && l'.deliveries == l.deliveries
                && l'.runs == l.runs[r := l.runs[r].(status := RunLeased, leaseUntil := Some(until), token := Some(token))]
  {
    SoundSchedules(l);
    if pending == [] {
      ClaimJobsStarts(l, active, now, until, id, token);
      hide ClaimJobs;
      hide StartsAt;
      hide Passes;
      hide Inv;
    } else {
      assert Claimable(l, pending[0], now);
      ClaimNeverInvalidates(l, pending, now, until, token);
      PendingAnswers(l, pending, now, until, token);
      hide ClaimPending;
      hide ClaimJobs;
      hide Inv;
    }
  }

  /** The loop over waiting runs: one whose job was edited since, or is no longer active, would be invalidated and the next
      one tried, except for the farewell of an ended job. */
  lemma StaleRunsAreInvalidated(l: Ledger, run: Id, rest: seq<Id>, now: int, until: int, token: Id)
    requires SchedulesValid(l) && Claimable(l, run, now) && l.runs[run].job in l.jobs
    requires var j := l.jobs[l.runs[run].job];
      j.revision != l.runs[run].revision || !(j.status.Active? || (j.status.Ended? && l.runs[run].trigger.ByLifecycle?))
    ensures ClaimPending(l, [], now, until, token) == Committed(l, None)
    ensures var l1 := Ledger(l.jobs, l.runs[run := l.runs[run].(status := Invalidated, leaseUntil := None)], l.deliveries);
      SchedulesValid(l1) && ClaimPending(l, [run] + rest, now, until, token) == ClaimPending(l1, rest, now, until, token)
  {
    assert ([run] + rest)[0] == run && ([run] + rest)[1..] == rest;
    hide WillEnd;
    hide WellFormed;
  }

  lemma PendingAnswers(l: Ledger, pending: seq<Id>, now: int, until: int, token: Id)
    requires Inv(l) && pending != [] && Claimable(l, pending[0], now)
    ensures ClaimPending(l, pending, now, until, token).Committed? ==> ClaimPending(l, pending, now, until, token).value == Some(pending[0])
  {
    ClaimNeverInvalidates(l, pending, now, until, token);
    hide ClaimPending;
    hide Inv;
  }

  /** What may be claimed: a run that waits, by itself or for a retry, and whose time has come. */
  lemma ClaimableExactly(l: Ledger, run: Id, now: int)
    ensures Claimable(l, run, now) <==> run in l.runs && l.runs[run].availableAt <= now && (l.runs[run].status.RunPending? || l.runs[run].status.RunRetryWait?)
  {
  }

  /** A job is busy while one of its runs is unfinished or one of their deliveries is. */
  lemma BusyExactly(l: Ledger, job: Id)
    ensures ActiveRun(l, job) <==>
      exists r | r in l.runs :: l.runs[r].job == job &&
        (l.runs[r].status in [RunPending, RunLeased, Executing, RunRetryWait]
         || exists k: nat :: Frame(r, k) in l.deliveries && l.deliveries[Frame(r, k)].status in [Pending, Leased, Sending, RetryWait])
  {
    forall r | r in l.runs ensures Busy(l, r) <==>
      l.runs[r].status in [RunPending, RunLeased, Executing, RunRetryWait]
      || exists k: nat :: Frame(r, k) in l.deliveries && l.deliveries[Frame(r, k)].status in [Pending, Leased, Sending, RetryWait]
    {
      if f :| f in l.deliveries && f.run == r && FrameOpen(l.deliveries[f].status) {
        assert Frame(r, f.sequence) == f;
      }
    }
  }
}
