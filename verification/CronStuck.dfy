/** A run can only finish when a next occurrence can be searched for: otherwise it is executed again and again. */
module CronStuck {
  import opened Wrappers
  import opened Calendar
  import opened CronSchedule
  import opened CronSearch
  import opened CronLedger
  import opened CronInvariant
  import opened CronTransitions
  import opened CronHistory
  import opened CronGrowth

  /** Completing a held run with good frames succeeds exactly when the search for the next occurrence does. */
  lemma CompletesExactly(l: Ledger, run: Id, token: Id, outcome: RunOutcome, frames: seq<string>, now: int)
    requires Inv(l) && SchedulesValid(l) && Holds(l, run, token, true) && ValidFrames(frames)
    ensures CompleteRun(l, run, token, outcome, frames, now).Committed? <==>
            NextOccurrence(l.jobs[l.runs[run].job].schedule, l.runs[run].scheduledFor).Ok?
  {
    OpenRunHasNoFrames(l, run);
    AddFramesShape(l, run, frames, DestinationOf(l.jobs[l.runs[run].job].content), l.runs[run].revision, now);
    hide AddFrames;
    hide Inv;
    hide WellFormed;
    hide NextOccurrence;
  }

  /** An open run whose job has no findable occurrence after it. */
  ghost predicate Unfinishable(l: Ledger, run: Id) {
    && run in l.runs && RunOpen(l.runs[run].status) && l.runs[run].job in l.jobs
    && var s := l.jobs[l.runs[run].job].schedule; WellFormed(s) && NextOccurrence(s, l.runs[run].scheduledFor).Raised?
  }

  /** The run is still open under the same schedule, or has been invalidated. */
  ghost predicate StaysOpen(l: Ledger, l': Ledger, run: Id)
    requires run in l.runs && l.runs[run].job in l.jobs
  {
    var job := l.runs[run].job;
    && run in l'.runs && l'.runs[run].job == job && l'.runs[run].scheduledFor == l.runs[run].scheduledFor
    && (l'.runs[run].status == Invalidated
        || (RunOpen(l'.runs[run].status) && job in l'.jobs && l'.jobs[job].schedule == l.jobs[job].schedule))
  }

  lemma QuietStays(l: Ledger, l': Ledger, run: Id)
    requires Quiet(l, l') && run in l.runs && RunOpen(l.runs[run].status) && l.runs[run].job in l.jobs
    ensures StaysOpen(l, l', run)
  {
    assert RunCalm(l.runs[run], l'.runs[run]) && SameJob(l.jobs[l.runs[run].job], l'.jobs[l.runs[run].job]);
  }

  lemma BumpStays(l: Ledger, id: Id, row: Job, now: int, run: Id)
    requires Inv(l) && BumpReady(l, id, row) && run in l.runs && RunOpen(l.runs[run].status)
    ensures StaysOpen(l, Bump(l, id, row, now), run) && StaysOpen(l, Redact(Bump(l, id, row, now), id), run)
  {
    var l' := Bump(l, id, row, now);
    BumpRuns(l, id, row, now);
    assert l'.jobs == l.jobs[id := row];
    assert l.runs[run].job in l.jobs;
    hide Bump;
    hide Inv;
    hide BumpReady;
    assert RunBumped(l.runs[run], l'.runs[run], id);
    hide Redact;
    RedactStays(l, l', id, run);
  }

  lemma RedactStays(l: Ledger, l': Ledger, id: Id, run: Id)
    requires run in l.runs && RunOpen(l.runs[run].status) && l.runs[run].job in l.jobs && l.runs[run].job in l'.jobs && StaysOpen(l, l', run)
    ensures StaysOpen(l, Redact(l', id), run)
  {
    var l2 := Redact(l', id);
    RedactQuiet(l', id);
    hide Redact;
    assert RunCalm(l'.runs[run], l2.runs[run]);
    assert SameJob(l'.jobs[l.runs[run].job], l2.jobs[l.runs[run].job]);
  }

  lemma UpdateStays(l: Ledger, owner: Id, id: Id, edit: Job, expected: nat, now: int, run: Id)
    requires Inv(l) && run in l.runs && RunOpen(l.runs[run].status) && l.runs[run].job in l.jobs
    ensures StaysOpen(l, After(l, Update(l, owner, id, edit, expected, now)), run)
  {
    hide Inv;
    hide InvalidateStale;
    if ValidJob(edit) && Editable(l, owner, id, expected) && !Terminal(l.jobs[id].status) {
      EditableReady(l, owner, id, expected, EditedJob(l.jobs[id], edit, now));
      hide EditedJob;
      BumpStays(l, id, EditedJob(l.jobs[id], edit, now), now, run);
    }
  }

  lemma ChangeStays(l: Ledger, owner: Id, id: Id, expected: nat, status: JobStatus, now: int, run: Id)
    requires Inv(l) && run in l.runs && RunOpen(l.runs[run].status) && l.runs[run].job in l.jobs
    ensures StaysOpen(l, After(l, ChangeStatus(l, owner, id, expected, status, now)), run)
  {
    if Editable(l, owner, id, expected) && !Terminal(l.jobs[id].status) {
      EditableReady(l, owner, id, expected, ChangedJob(l.jobs[id], status, now));
      hide ChangedJob;
      hide Inv;
      hide InvalidateStale;
      hide Redact;
      BumpStays(l, id, ChangedJob(l.jobs[id], status, now), now, run);
    }
  }

  lemma DeleteStays(l: Ledger, owner: Id, id: Id, expected: nat, now: int, run: Id)
    requires Inv(l) && run in l.runs && RunOpen(l.runs[run].status) && l.runs[run].job in l.jobs
    ensures StaysOpen(l, After(l, Delete(l, owner, id, expected, now)), run)
  {
    if Editable(l, owner, id, expected) {
      EditableReady(l, owner, id, expected, DeletedJob(l.jobs[id]));
      hide DeletedJob;
      hide Inv;
      hide InvalidateStale;
      hide Redact;
      BumpStays(l, id, DeletedJob(l.jobs[id]), now, run);
    }
  }

  lemma InsertStays(l: Ledger, id: Id, job: Id, due: int, trigger: Trigger, now: int, run: Id)
    requires job in l.jobs && run in l.runs && RunOpen(l.runs[run].status) && l.runs[run].job in l.jobs
    ensures StaysOpen(l, After(l, InsertRun(l, id, job, due, trigger, now)), run)
  {
    hide KeyTaken;
  }

  lemma StartStays(l: Ledger, job: Id, due: int, trigger: Trigger, now: int, until: int, id: Id, token: Id, run: Id)
    requires job in l.jobs && WellFormed(l.jobs[job].schedule) && run in l.runs && RunOpen(l.runs[run].status) && l.runs[run].job in l.jobs
    ensures StaysOpen(l, After(l, StartRun(l, job, due, trigger, now, until, id, token)), run)
  {
    InsertStays(l, id, job, due, trigger, now, run);
    hide KeyTaken;
    hide WillEnd;
    hide WellFormed;
  }

  lemma OwedStays(l: Ledger, job: Id, now: int, run: Id)
    requires job in l.jobs && WellFormed(l.jobs[job].schedule) && run in l.runs && RunOpen(l.runs[run].status) && l.runs[run].job in l.jobs
    ensures var o := WhatIsOwed(l, job, now);
      o.OwedRaised? || (StaysOpen(l, o.ledger, run) && o.ledger.runs == l.runs && l.runs[run].job in o.ledger.jobs)
  {
    OwedCases(l, job, now);
    hide WhatIsOwed;
  }

  lemma {:induction false} ClaimJobsStay(l: Ledger, scan: seq<Id>, now: int, until: int, id: Id, token: Id, run: Id)
    requires SchedulesValid(l) && Inv(l) && run in l.runs && RunOpen(l.runs[run].status) && l.runs[run].job in l.jobs
    ensures StaysOpen(l, After(l, ClaimJobs(l, scan, now, until, id, token)), run)
    decreases |scan|
  {
    hide WhatIsOwed;
    hide ActiveRun;
    hide StartRun;
    if scan != [] && scan[0] in l.jobs && l.jobs[scan[0]].status == Active {
      if ActiveRun(l, scan[0]) {
        ClaimJobsStay(l, scan[1..], now, until, id, token, run);
      } else {
        OwedKeeps(l, scan[0], now);
        OwedStays(l, scan[0], now, run);
        hide WellFormed;
        hide Inv;
        match WhatIsOwed(l, scan[0], now)
        case OwedRaised =>
        case Nothing(l') => ClaimJobsStay(l', scan[1..], now, until, id, token, run);
        case Owed(l', due, trigger) => StartStays(l', scan[0], due, trigger, now, until, id, token, run);
      }
    }
  }

  lemma NothingClaimed(l: Ledger, pending: seq<Id>, now: int, until: int, token: Id)
    requires Inv(l) && SchedulesValid(l)
    ensures var s := ClaimPending(l, pending, now, until, token); s.Committed? && s.value.None? ==> s.ledger == l
  {
    if pending != [] && Claimable(l, pending[0], now) {
      ClaimNeverInvalidates(l, pending, now, until, token);
      hide ClaimPending;
    }
    hide Inv;
  }

  lemma ClaimDueRunStays(l: Ledger, pending: seq<Id>, active: seq<Id>, now: int, until: int, id: Id, token: Id, run: Id)
    requires SchedulesValid(l) && Inv(l) && run in l.runs && RunOpen(l.runs[run].status) && l.runs[run].job in l.jobs
    ensures StaysOpen(l, After(l, ClaimDueRun(l, pending, active, now, until, id, token)), run)
  {
    var s := ClaimPending(l, pending, now, until, token);
    ClaimPendingQuiet(l, pending, now, until, token);
    NothingClaimed(l, pending, now, until, token);
    hide ClaimPending;
    hide ClaimJobs;
    hide Inv;
    hide SchedulesValid;
    QuietStays(l, After(l, s), run);
    QuietStaysRefl(l, run);
    hide Quiet;
    hide StaysOpen;
    ClaimJobsStay(l, active, now, until, id, token, run);
  }

  lemma QuietStaysRefl(l: Ledger, run: Id)
    requires run in l.runs && RunOpen(l.runs[run].status) && l.runs[run].job in l.jobs
    ensures StaysOpen(l, l, run)
  {
  }

  lemma OtherRunFinishes(l: Ledger, l': Ledger, finished: Id, run: Id)
    requires RunFinished(l, l', finished) && finished != run
    requires run in l.runs && RunOpen(l.runs[run].status) && l.runs[run].job in l.jobs
    ensures StaysOpen(l, l', run)
  {
  }

  lemma CompleteStays(l: Ledger, id: Id, token: Id, outcome: RunOutcome, frames: seq<string>, now: int, run: Id)
    requires SchedulesValid(l) && Inv(l) && Unfinishable(l, run)
    ensures StaysOpen(l, After(l, CompleteRun(l, id, token, outcome, frames, now)), run)
  {
    CompleteRunFinishes(l, id, token, outcome, frames, now);
    if id == run && Holds(l, id, token, true) && ValidFrames(frames) {
      CompletesExactly(l, id, token, outcome, frames, now);
    }
    hide AddFrames;
    hide Ends;
    hide Inv;
    hide CountMoves;
    hide NextOccurrence;
    var s := CompleteRun(l, id, token, outcome, frames, now);
    if s.Committed? && s.value && id != run {
      hide CompleteRun;
      OtherRunFinishes(l, s.ledger, id, run);
    }
  }

  lemma LastFailureRaises(l: Ledger, run: Id, token: Id, now: int)
    requires SchedulesValid(l) && Unfinishable(l, run) && Holds(l, run, token, true) && l.runs[run].attempts + 1 >= MAX_RUN_ATTEMPTS
    ensures FailRun(l, run, token, now).Aborted?
  {
    hide NextOccurrence;
    hide AddFrames;
    hide WellFormed;
  }

  lemma FailStays(l: Ledger, id: Id, token: Id, now: int, run: Id)
    requires SchedulesValid(l) && Inv(l) && Unfinishable(l, run)
    ensures StaysOpen(l, After(l, FailRun(l, id, token, now)), run)
  {
    FailRunShape(l, id, token, now);
    hide NextOccurrence;
    if Holds(l, id, token, true) && id == run && l.runs[run].attempts + 1 >= MAX_RUN_ATTEMPTS {
      LastFailureRaises(l, run, token, now);
      hide FailRun;
    } else {
      hide Inv;
      hide CountMoves;
      var s := FailRun(l, id, token, now);
      if s.Committed? && s.value {
        assert Holds(l, id, token, true);
        hide FailRun;
        if l.runs[id].attempts + 1 < MAX_RUN_ATTEMPTS {
          QuietStays(l, s.ledger, run);
        } else {
          OtherRunFinishes(l, s.ledger, id, run);
        }
      }
    }
  }

  lemma ApplyStays(l: Ledger, e: Event, run: Id)
    requires SchedulesValid(l) && Inv(l) && Unfinishable(l, run)
    ensures StaysOpen(l, Apply(l, e), run)
  {
    hide NextOccurrence;
    if QuietEvent(e) {
      QuietEvents(l, e);
      hide Apply;
      QuietStays(l, Apply(l, e), run);
    } else {
      WorkEventsStay(l, e, run);
    }
  }

  lemma WorkEventsStay(l: Ledger, e: Event, run: Id)
    requires SchedulesValid(l) && Inv(l) && Unfinishable(l, run)
    requires !QuietEvent(e)
    ensures StaysOpen(l, Apply(l, e), run)
  {
    hide ClaimDueRun;
    hide Update;
    hide ChangeStatus;
    hide Delete;
    hide CompleteRun;
    hide FailRun;
    hide InsertRun;
    hide ValidJob;
    hide ActiveRun;
    hide Inv;
    hide NextOccurrence;
    match e
    case Creating(_, _, _) =>
    case Updating(owner, id, edit, expected, now) => UpdateStays(l, owner, id, edit, expected, now, run);
    case Changing(owner, id, expected, status, now) => ChangeStays(l, owner, id, expected, status, now, run);
    case Deleting(owner, id, expected, now) => DeleteStays(l, owner, id, expected, now, run);
    case RequestingRun(_, id, _, newRun, now) =>
      if id in l.jobs {
        InsertStays(l, newRun, id, now, Manually, now, run);
      }
    case ClaimingRun(pending, active, now, until, newRun, token) => ClaimDueRunStays(l, pending, active, now, until, newRun, token, run);
    case Completing(id, token, outcome, frames, now) => CompleteStays(l, id, token, outcome, frames, now, run);
    case Failing(id, token, now) => FailStays(l, id, token, now, run);
  }

  ghost predicate Dropped(l: Ledger, run: Id) {
    run in l.runs && l.runs[run].status == Invalidated
  }

  lemma DroppedStays(l: Ledger, e: Event, run: Id)
    requires SchedulesValid(l) && Inv(l) && Dropped(l, run)
    ensures Dropped(Apply(l, e), run)
  {
    ApplyGrows(l, e);
    hide Inv;
    hide Apply;
    assert RunGrows(l.runs[run], Apply(l, e).runs[run]);
  }

  /** Whatever is called in whatever order, such a run never succeeds, never fails and never gets a delivery:
      it stays open, to be executed once more after every expired lease, until its job is changed. */
  lemma {:induction false} NeverFinishes(l: Ledger, events: seq<Event>, run: Id)
    requires Inv(l) && (Unfinishable(l, run) || Dropped(l, run))
    ensures var l' := Play(l, events); (Unfinishable(l', run) || Dropped(l', run)) && !HasFrames(l', run)
    decreases |events|
  {
    hide NextOccurrence;
    if events == [] {
      UndoneHasNoFrames(l, run);
    } else {
      ApplyKeeps(l, events[0]);
      if Unfinishable(l, run) {
        ApplyStays(l, events[0], run);
        RunsKnowJobs(Apply(l, events[0]));
      } else {
        DroppedStays(l, events[0], run);
      }
      hide Inv;
      hide Apply;
      NeverFinishes(Apply(l, events[0]), events[1..], run);
    }
  }

  lemma RunsKnowJobs(l: Ledger)
    requires Inv(l)
    ensures SchedulesValid(l)
  {
  }

  lemma UndoneHasNoFrames(l: Ledger, run: Id)
    requires Inv(l) && run in l.runs && !RunDone(l.runs[run].status)
    ensures !HasFrames(l, run)
  {
  }

  /** In every reachable ledger only a manual or a lifecycle run is ever such a case. */
  lemma OccurrenceRunsAreNeverStuck(events: seq<Event>, run: Id)
    ensures Inv(EMPTY)
    ensures var l := Play(EMPTY, events); Unfinishable(l, run) ==> l.runs[run].trigger == Manually || l.runs[run].trigger == ByLifecycle
  {
    OccurrenceRunsContinue(events, run);
    hide Play;
    hide Inv;
    hide NextOccurrence;
  }

  /** A manual run requested while the search finds no next occurrence is one: it never finishes, whatever happens. */
  lemma ManualRunInAGapNeverFinishes(l: Ledger, owner: Id, job: Id, expected: Option<nat>, run: Id, now: int, events: seq<Event>)
    requires Inv(l) && RequestManualRun(l, owner, job, expected, run, now).Committed? && RequestManualRun(l, owner, job, expected, run, now).value
    requires NextOccurrence(l.jobs[job].schedule, now).Raised?
    ensures var l1 := RequestManualRun(l, owner, job, expected, run, now).ledger;
      && Inv(l1) && Unfinishable(l1, run)
      && var l2 := Play(l1, events); run in l2.runs && !RunDone(l2.runs[run].status) && !HasFrames(l2, run)
  {
    ManualRunKeeps(l, owner, job, expected, run, now);
    hide NextOccurrence;
    hide Inv;
    hide ActiveRun;
    hide KeyTaken;
    var l1 := RequestManualRun(l, owner, job, expected, run, now).ledger;
    assert Unfinishable(l1, run);
    hide RequestManualRun;
    NeverFinishes(l1, events, run);
    hide Play;
    hide HasFrames;
  }

  /** Midnight on every 29th of February, without an end. */
  const LEAP_JOB := Job(0, Content("telegram:1", "water the plants", []), Cron(LEAP_MIDNIGHT, UTC), None, None, Active, 1, 0, None, None, CENTURY_START)

  const LEAP_RUN := Run(1, LAST_LEAP_DAY, Manually, 1, RunPending, 0, LAST_LEAP_DAY, None, None, None, None)

  /** Such a run is reachable: create the job and ask for a run at midnight on 29 February 2096. */
  lemma LeapDayManualRunNeverFinishes(events: seq<Event>)
    ensures Inv(EMPTY)
    ensures var l := Play(EMPTY, [Creating(1, LEAP_JOB, CENTURY_START), RequestingRun(0, 1, None, 5, LAST_LEAP_DAY)]);
      && 5 in l.runs && RunOpen(l.runs[5].status) && Inv(l)
      && var l' := Play(l, events); 5 in l'.runs && !RunDone(l'.runs[5].status) && !HasFrames(l', 5)
  {
    LeapRunIsReachable();
    var l := Ledger(map[1 := LEAP_JOB], map[5 := LEAP_RUN], map[]);
    assert Unfinishable(l, 5) by {
      FiveYearsAreNotEnough();
      hide NextOccurrence;
      hide DayNumber;
    }
    hide NextOccurrence;
    hide Play;
    hide Inv;
    hide HasFrames;
    NeverFinishes(l, events, 5);
    hide Unfinishable;
  }

  lemma LeapRunIsReachable()
    ensures Inv(EMPTY)
    ensures Play(EMPTY, [Creating(1, LEAP_JOB, CENTURY_START), RequestingRun(0, 1, None, 5, LAST_LEAP_DAY)])
         == Ledger(map[1 := LEAP_JOB], map[5 := LEAP_RUN], map[])
  {
    assert Inv(EMPTY);
    hide *;
    var l1 := Ledger(map[1 := LEAP_JOB], map[], map[]);
    LeapJobIsCreated();
    LeapRunIsRequested(l1);
    PlayPath(EMPTY, [Creating(1, LEAP_JOB, CENTURY_START), RequestingRun(0, 1, None, 5, LAST_LEAP_DAY)],
             [EMPTY, l1, Ledger(map[1 := LEAP_JOB], map[5 := LEAP_RUN], map[])]);
  }

  lemma LeapJobIsCreated()
    ensures Leads(EMPTY, Creating(1, LEAP_JOB, CENTURY_START), Ledger(map[1 := LEAP_JOB], map[], map[]))
  {
    assert LEAP_JOB.content.destination[0] == 't' && LEAP_JOB.content.text[0] == 'w';
    hide DayNumber;
  }

  lemma LeapRunIsRequested(l: Ledger)
    requires l == Ledger(map[1 := LEAP_JOB], map[], map[])
    ensures Leads(l, RequestingRun(0, 1, None, 5, LAST_LEAP_DAY), Ledger(map[1 := LEAP_JOB], map[5 := LEAP_RUN], map[]))
  {
    assert !ActiveRun(l, 1) && !KeyTaken(l, 1, LAST_LEAP_DAY, Manually);
    hide DayNumber;
  }
}
