/** What becomes of a job whose content was erased under its open lifecycle run: the waiting run can never be claimed,
    and what a claimed one delivers has no destination and can never be sent. */
module CronErased {
  import opened Wrappers
  import opened CronSchedule
  import opened CronLedger
  import opened CronInvariant
  import opened CronTransitions
  import opened CronHistory
  import opened CronGrowth
  import opened CronAccounting
  import opened CronRedaction
  import opened CronStuck
  import opened CronSends
  import opened CronBlocked

  // ----- Waiting runs -----

  /** A waiting run of a terminal job whose content was erased. */
  ghost predicate ErasedWaiting(l: Ledger, run: Id) {
    && run in l.runs && (l.runs[run].status == RunPending || l.runs[run].status == RunRetryWait)
    && l.runs[run].job in l.jobs && Terminal(l.jobs[l.runs[run].job].status) && l.jobs[l.runs[run].job].content.Redacted?
  }

  /** In every reachable ledger only terminal jobs are erased, so a waiting run of an erased job is the lifecycle run of
      an ended one. */
  lemma ErasedJobsAreTerminal(events: seq<Event>, run: Id)
    ensures Inv(EMPTY)
    ensures var l := Play(EMPTY, events);
      && (forall j | j in l.jobs && l.jobs[j].content.Redacted? :: Terminal(l.jobs[j].status))
      && (run in l.runs && RunOpen(l.runs[run].status) && l.runs[run].job in l.jobs && l.jobs[l.runs[run].job].content.Redacted? ==>
            l.runs[run].trigger == ByLifecycle && l.jobs[l.runs[run].job].status == Ended)
  {
    assert Inv(EMPTY);
    PlayGrows(EMPTY, events);
    var l := Play(EMPTY, events);
    hide Play;
    assert forall j | j in l.jobs && l.jobs[j].content.Redacted? :: Terminal(l.jobs[j].status);
    hide Grows;
    assert run in l.runs && RunOpen(l.runs[run].status) ==> Permits(l.jobs[l.runs[run].job], l.runs[run]);
    hide Inv;
  }

  /** While content is erased exactly when it should be, no open run has lost its content, so a waiting run keeps the
      claim from answering only in a gap of its schedule. */
  lemma ExactLedgersKeepContent(l: Ledger, run: Id)
    requires Inv(l) && Exact(l) && run in l.runs && RunOpen(l.runs[run].status)
    ensures l.runs[run].job in l.jobs && !l.jobs[l.runs[run].job].content.Redacted?
    ensures PendingBlocks(l, run) ==> l.runs[run].trigger == Manually
  {
    var job := l.runs[run].job;
    assert HasOpenRun(l, job);
    assert ExactFor(l, job);
    hide Exact;
    hide HasNext;
  }

  /** A claim that comes to such a run raises, whatever is listed behind it. */
  lemma ErasedWaitingBlocks(l: Ledger, run: Id, rest: seq<Id>, active: seq<Id>, now: int, until: int, id: Id, token: Id)
    requires Inv(l) && SchedulesValid(l) && ErasedWaiting(l, run)
    ensures ClaimDueRun(l, [run] + rest, active, now, until, id, token).Aborted?
  {
    var scan := [run] + rest;
    assert scan[0] == run;
    assert RunOpen(l.runs[run].status);
    assert Permits(l.jobs[l.runs[run].job], l.runs[run]);
    hide Inv;
    hide Permits;
    hide WillEnd;
    assert ClaimPending(l, scan, now, until, token).Aborted?;
    hide ClaimPending;
  }

  // Which calls change the status of a waiting run: none, until its job is deleted.

  ghost predicate RunWaits(l: Ledger, l': Ledger, run: Id)
    requires run in l.runs
  {
    run in l'.runs && (l'.runs[run].status == l.runs[run].status || l'.runs[run].status == Invalidated)
  }

  lemma SetOtherRun(l: Ledger, other: Id, row: Run, run: Id)
    requires run in l.runs && other != run
    ensures RunWaits(l, SetRun(l, other, row), run)
  {
  }

  lemma StaysWaiting(l: Ledger, run: Id)
    requires run in l.runs
    ensures RunWaits(l, l, run)
  {
  }

  lemma RedactWaits(l: Ledger, l': Ledger, job: Id, run: Id)
    requires run in l.runs && RunWaits(l, l', run)
    ensures RunWaits(l, Redact(l', job), run)
  {
    hide HasOpenFrame;
  }

  lemma {:induction false} RedactAllWaits(l: Ledger, l': Ledger, jobs: seq<Id>, run: Id)
    requires run in l.runs && RunWaits(l, l', run)
    ensures RunWaits(l, RedactAll(l', jobs), run)
    decreases |jobs|
  {
    hide Redact;
    hide RunWaits;
    if jobs != [] {
      RedactWaits(l, l', jobs[0], run);
      RedactAllWaits(l, Redact(l', jobs[0]), jobs[1..], run);
    }
  }

  lemma {:induction false} PaceAllRuns(l: Ledger, runs: seq<Id>, now: int, pace: nat)
    ensures PaceAll(l, runs, now, pace).runs == l.runs
    decreases |runs|
  {
    hide PaceFrame;
    hide FirstWaiting;
    if runs != [] {
      PaceFirstRuns(l, runs[0], now, pace);
      hide PaceFirst;
      PaceAllRuns(PaceFirst(l, runs[0], now, pace), runs[1..], now, pace);
    }
  }

  lemma PaceFirstRuns(l: Ledger, run: Id, now: int, pace: nat)
    ensures PaceFirst(l, run, now, pace).runs == l.runs
  {
    hide FirstWaiting;
  }

  lemma RecoverWaits(l: Ledger, runs: seq<Id>, jobs: seq<Id>, now: int, pace: nat, run: Id)
    requires ErasedWaiting(l, run)
    ensures RunWaits(l, After(l, Recover(l, runs, jobs, now, pace)), run)
  {
    var l0 := RecoverRows(l, now);
    PaceAllRuns(l0, runs, now, pace);
    StaysWaiting(l, run);
    assert l0.runs[run] == l.runs[run];
    var l1 := PaceAll(l0, runs, now, pace);
    assert RunWaits(l, l1, run);
    hide RecoverRows;
    hide PaceAll;
    hide RunWaits;
    RedactAllWaits(l, l1, jobs, run);
    hide RedactAll;
    hide ListsUnknown;
    hide ListsExpiredSends;
  }

  lemma ClaimDeliveryWaits(l: Ledger, picks: seq<Frame>, now: int, until: int, token: Id, run: Id)
    requires Inv(l) && run in l.runs
    ensures RunWaits(l, After(l, ClaimDelivery(l, picks, now, until, token)), run)
  {
    LiveFramesOf(l);
    hide Inv;
    hide LiveFrames;
    if picks != [] && Eligible(l, picks[0], now) {
      DeliveryClaimNeverSuppresses(l, picks, now, until, token);
      hide ClaimDelivery;
    }
    hide Eligible;
  }

  lemma FinishDeliveryWaits(l: Ledger, f: Frame, token: Id, result: DeliveryStatus, now: int, pace: nat, run: Id)
    requires run in l.runs
    ensures RunWaits(l, After(l, FinishDelivery(l, f, token, result, now, pace)), run)
  {
    hide Redact;
    hide PaceFrame;
    hide RunWaits;
    StaysWaiting(l, run);
    if HoldsFrame(l, f, token, Sending) {
      var l1 := SetFrame(l, f, l.deliveries[f].(status := result, leaseUntil := None, updatedAt := now));
      var l2 := if result == Suppressed then l1 else PaceFrame(l1, Frame(f.run, f.sequence + 1), now, pace);
      PaceFrameRuns(l1, Frame(f.run, f.sequence + 1), now, pace);
      SameRunsWait(l, l2, run);
      RedactWaits(l, l2, l.runs[f.run].job, run);
    }
  }

  lemma AdmitWaits(l: Ledger, f: Frame, token: Id, now: int, run: Id)
    requires run in l.runs
    ensures RunWaits(l, After(l, AdmitDelivery(l, f, token, now)), run)
  {
    hide Admissible;
  }

  lemma DeliveryEventsWait(l: Ledger, e: Event, run: Id)
    requires SchedulesValid(l) && Inv(l) && run in l.runs
    requires e.ClaimingDelivery? || e.Admitting? || e.Finishing? || e.FailingDelivery? || e.Redacting?
    ensures RunWaits(l, Apply(l, e), run)
  {
    StaysWaiting(l, run);
    hide RunWaits;
    if e.Finishing? || e.FailingDelivery? {
      ReportEventsWait(l, e, run);
      hide Apply;
    } else {
      hide Inv;
      hide ClaimDelivery;
      hide AdmitDelivery;
      hide Redact;
      match e
      case ClaimingDelivery(picks, now, until, token) => ClaimDeliveryWaits(l, picks, now, until, token, run);
      case Admitting(f, token, now) => AdmitWaits(l, f, token, now, run);
      case Redacting(_, id) => RedactWaits(l, l, id, run);
    }
  }

  lemma ReportEventsWait(l: Ledger, e: Event, run: Id)
    requires SchedulesValid(l) && run in l.runs && (e.Finishing? || e.FailingDelivery?)
    ensures RunWaits(l, Apply(l, e), run)
  {
    StaysWaiting(l, run);
    hide RunWaits;
    hide FinishDelivery;
    hide FailDelivery;
    match e
    case Finishing(f, token, result, now, pace) => FinishDeliveryWaits(l, f, token, result, now, pace, run);
    case FailingDelivery(f, token, now, pace) => FailDeliveryWaits(l, f, token, now, pace, run);
  }

  lemma SameRunsWait(l: Ledger, l': Ledger, run: Id)
    requires run in l.runs && l'.runs == l.runs
    ensures RunWaits(l, l', run)
  {
  }

  lemma PaceFrameRuns(l: Ledger, f: Frame, now: int, pace: nat)
    ensures PaceFrame(l, f, now, pace).runs == l.runs
  {
  }

  lemma FailDeliveryWaits(l: Ledger, f: Frame, token: Id, now: int, pace: nat, run: Id)
    requires run in l.runs
    ensures RunWaits(l, After(l, FailDelivery(l, f, token, now, pace)), run)
  {
    hide Redact;
    hide PaceFirst;
    hide PowerOfTwo;
    hide RunWaits;
    StaysWaiting(l, run);
    if HoldsFrame(l, f, token, Sending) {
      var d := l.deliveries[f];
      var backoff := Later(now, PowerOfTwo(if d.attempts > 0 then d.attempts - 1 else 0));
      var l1 := SetFrame(l, f, d.(status := Exhausted, availableAt := backoff, leaseUntil := None, updatedAt := now));
      PaceFirstRuns(l1, f.run, now, pace);
      SameRunsWait(l, PaceFirst(l1, f.run, now, pace), run);
      RedactWaits(l, PaceFirst(l1, f.run, now, pace), l.runs[f.run].job, run);
      SameRunsWait(l, SetFrame(l, f, d.(status := RetryWait, availableAt := backoff, leaseUntil := None, updatedAt := now)), run);
    }
  }

  lemma LeaseEventsWait(l: Ledger, e: Event, run: Id)
    requires SchedulesValid(l) && ErasedWaiting(l, run) && (e.Renewing? || e.Beginning? || e.Deferring?)
    ensures RunWaits(l, Apply(l, e), run)
  {
    hide Permits;
  }

  lemma BumpWaits(l: Ledger, id: Id, row: Job, now: int, run: Id)
    requires Inv(l) && BumpReady(l, id, row) && ErasedWaiting(l, run)
    ensures RunWaits(l, Bump(l, id, row, now), run) && RunWaits(l, Redact(Bump(l, id, row, now), id), run)
  {
    assert RunWaits(l, Bump(l, id, row, now), run) by {
      hide Inv;
      hide BumpReady;
    }
    hide Bump;
    hide Redact;
    hide RunWaits;
    RedactWaits(l, Bump(l, id, row, now), id, run);
  }

  lemma UpdateWaits(l: Ledger, owner: Id, id: Id, edit: Job, expected: nat, now: int, run: Id)
    requires Inv(l) && ErasedWaiting(l, run)
    ensures RunWaits(l, After(l, Update(l, owner, id, edit, expected, now)), run)
  {
    StaysWaiting(l, run);
    hide RunWaits;
    hide Inv;
    hide InvalidateStale;
    hide ErasedWaiting;
    if ValidJob(edit) && Editable(l, owner, id, expected) && !Terminal(l.jobs[id].status) {
      EditableReady(l, owner, id, expected, EditedJob(l.jobs[id], edit, now));
      hide EditedJob;
      BumpWaits(l, id, EditedJob(l.jobs[id], edit, now), now, run);
    }
  }

  lemma ChangeWaits(l: Ledger, owner: Id, id: Id, expected: nat, status: JobStatus, now: int, run: Id)
    requires Inv(l) && ErasedWaiting(l, run)
    ensures RunWaits(l, After(l, ChangeStatus(l, owner, id, expected, status, now)), run)
  {
    StaysWaiting(l, run);
    hide RunWaits;
    hide ErasedWaiting;
    if Editable(l, owner, id, expected) && !Terminal(l.jobs[id].status) {
      EditableReady(l, owner, id, expected, ChangedJob(l.jobs[id], status, now));
      hide ChangedJob;
      hide Inv;
      hide InvalidateStale;
      hide Redact;
      BumpWaits(l, id, ChangedJob(l.jobs[id], status, now), now, run);
    }
  }

  lemma DeleteWaits(l: Ledger, owner: Id, id: Id, expected: nat, now: int, run: Id)
    requires Inv(l) && ErasedWaiting(l, run)
    ensures RunWaits(l, After(l, Delete(l, owner, id, expected, now)), run)
  {
    StaysWaiting(l, run);
    hide RunWaits;
    hide ErasedWaiting;
    if Editable(l, owner, id, expected) {
      EditableReady(l, owner, id, expected, DeletedJob(l.jobs[id]));
      hide DeletedJob;
      hide Inv;
      hide InvalidateStale;
      hide Redact;
      BumpWaits(l, id, DeletedJob(l.jobs[id]), now, run);
    }
  }

  lemma JobEventsWait(l: Ledger, e: Event, run: Id)
    requires SchedulesValid(l) && Inv(l) && ErasedWaiting(l, run) && (e.Updating? || e.Changing? || e.Deleting?)
    ensures RunWaits(l, Apply(l, e), run)
  {
    StaysWaiting(l, run);
    hide RunWaits;
    hide Inv;
    hide Update;
    hide ChangeStatus;
    hide Delete;
    match e
    case Updating(owner, id, edit, expected, now) => UpdateWaits(l, owner, id, edit, expected, now, run);
    case Changing(owner, id, expected, status, now) => ChangeWaits(l, owner, id, expected, status, now, run);
    case Deleting(owner, id, expected, now) => DeleteWaits(l, owner, id, expected, now, run);
  }

  lemma InsertWaits(l: Ledger, l1: Ledger, id: Id, job: Id, due: int, trigger: Trigger, now: int, run: Id)
    requires run in l.runs && l1.runs == l.runs && job in l1.jobs
    ensures RunWaits(l, After(l1, InsertRun(l1, id, job, due, trigger, now)), run)
    ensures InsertRun(l1, id, job, due, trigger, now).Committed? ==> id != run
  {
    hide KeyTaken;
  }

  lemma StartWaits(l: Ledger, l1: Ledger, job: Id, due: int, trigger: Trigger, now: int, until: int, id: Id, token: Id, run: Id)
    requires run in l.runs && l1.runs == l.runs && job in l1.jobs && WellFormed(l1.jobs[job].schedule)
    ensures RunWaits(l, After(l1, StartRun(l1, job, due, trigger, now, until, id, token)), run)
  {
    InsertWaits(l, l1, id, job, due, trigger, now, run);
    hide KeyTaken;
    hide WillEnd;
    hide WellFormed;
  }

  lemma {:induction false} ClaimJobsWait(l: Ledger, l1: Ledger, scan: seq<Id>, now: int, until: int, id: Id, token: Id, run: Id)
    requires run in l.runs && l1.runs == l.runs && SchedulesValid(l1)
    ensures RunWaits(l, After(l1, ClaimJobs(l1, scan, now, until, id, token)), run)
    decreases |scan|
  {
    hide WhatIsOwed;
    hide ActiveRun;
    hide StartRun;
    hide WellFormed;
    if scan != [] && scan[0] in l1.jobs && l1.jobs[scan[0]].status == Active {
      if ActiveRun(l1, scan[0]) {
        ClaimJobsWait(l, l1, scan[1..], now, until, id, token, run);
      } else {
        OwedCases(l1, scan[0], now);
        match WhatIsOwed(l1, scan[0], now)
        case OwedRaised =>
        case Nothing(l') => ClaimJobsWait(l, l', scan[1..], now, until, id, token, run);
        case Owed(l', due, trigger) => StartWaits(l, l', scan[0], due, trigger, now, until, id, token, run);
      }
    }
  }

  lemma ClaimWaits(l: Ledger, pending: seq<Id>, active: seq<Id>, now: int, until: int, id: Id, token: Id, run: Id)
    requires SchedulesValid(l) && Inv(l) && ErasedWaiting(l, run)
    ensures RunWaits(l, After(l, ClaimDueRun(l, pending, active, now, until, id, token)), run)
  {
    StaysWaiting(l, run);
    var s := ClaimPending(l, pending, now, until, token);
    if pending != [] && pending[0] == run {
      ErasedWaitingBlocks(l, run, pending[1..], active, now, until, id, token);
      assert [run] + pending[1..] == pending;
      hide ClaimDueRun;
    } else if pending != [] {
      if Claimable(l, pending[0], now) {
        ClaimNeverInvalidates(l, pending, now, until, token);
        SetOtherRun(l, pending[0], l.runs[pending[0]].(status := RunLeased, leaseUntil := Some(until), token := Some(token)), run);
      } else {
        assert s.Aborted?;
      }
      hide ClaimPending;
      hide RunWaits;
      hide Inv;
      hide ClaimJobs;
    } else {
      hide RunWaits;
      hide ClaimJobs;
      ClaimJobsWait(l, l, active, now, until, id, token, run);
      hide Inv;
    }
  }

  lemma OtherFinishWaits(l: Ledger, l': Ledger, finished: Id, run: Id)
    requires RunFinished(l, l', finished) && finished != run && run in l.runs
    ensures RunWaits(l, l', run)
  {
  }

  lemma CompleteWaits(l: Ledger, id: Id, token: Id, outcome: RunOutcome, frames: seq<string>, now: int, run: Id)
    requires SchedulesValid(l) && Inv(l) && ErasedWaiting(l, run)
    ensures RunWaits(l, After(l, CompleteRun(l, id, token, outcome, frames, now)), run)
  {
    CompleteRunFinishes(l, id, token, outcome, frames, now);
    StaysWaiting(l, run);
    hide RunWaits;
    hide Inv;
    hide CountMoves;
    hide RunFinished;
    hide AddFrames;
    hide Ends;
    hide Permits;
    var s := CompleteRun(l, id, token, outcome, frames, now);
    if s.Committed? && s.value {
      assert id != run;
      hide CompleteRun;
      OtherFinishWaits(l, s.ledger, id, run);
    }
  }

  lemma FailWaits(l: Ledger, id: Id, token: Id, now: int, run: Id)
    requires SchedulesValid(l) && Inv(l) && ErasedWaiting(l, run)
    ensures RunWaits(l, After(l, FailRun(l, id, token, now)), run)
  {
    FailRunShape(l, id, token, now);
    StaysWaiting(l, run);
    hide RunWaits;
    hide Inv;
    hide CountMoves;
    hide RunFinished;
    hide Quiet;
    hide AddFrames;
    hide LastBefore;
    hide Permits;
    hide PowerOfTwo;
    var s := FailRun(l, id, token, now);
    if s.Committed? && s.value {
      assert id != run;
      if l.runs[id].attempts + 1 < MAX_RUN_ATTEMPTS {
        SetOtherRun(l, id, RetriedRun(l.runs[id], now), run);
      } else {
        hide FailRun;
        OtherFinishWaits(l, s.ledger, id, run);
      }
    }
  }

  lemma RowEventsWait(l: Ledger, e: Event, run: Id)
    requires SchedulesValid(l) && ErasedWaiting(l, run) && (e.Creating? || e.RequestingRun?)
    ensures RunWaits(l, Apply(l, e), run)
  {
    hide ActiveRun;
    hide ValidJob;
    if e.RequestingRun? && e.id in l.jobs {
      InsertWaits(l, l, e.run, e.id, e.now, Manually, e.now, run);
      hide InsertRun;
    }
  }

  lemma QuietEventsWait(l: Ledger, e: Event, run: Id)
    requires SchedulesValid(l) && Inv(l) && ErasedWaiting(l, run) && QuietEvent(e)
    ensures RunWaits(l, Apply(l, e), run)
  {
    assert run in l.runs;
    hide Inv;
    hide RunWaits;
    hide ErasedWaiting;
    if e.Recovering? {
      RecoverWaits(l, e.runs, e.jobs, e.now, e.pace, run);
      hide Recover;
    } else {
      hide Apply;
      if e.Renewing? || e.Beginning? || e.Deferring? {
        LeaseEventsWait(l, e, run);
      } else {
        DeliveryEventsWait(l, e, run);
      }
    }
  }

  lemma ApplyWaits(l: Ledger, e: Event, run: Id)
    requires SchedulesValid(l) && Inv(l) && ErasedWaiting(l, run)
    ensures RunWaits(l, Apply(l, e), run)
  {
    hide Inv;
    hide RunWaits;
    hide ErasedWaiting;
    if QuietEvent(e) {
      hide Apply;
      QuietEventsWait(l, e, run);
    } else if e.Updating? || e.Changing? || e.Deleting? {
      hide Apply;
      JobEventsWait(l, e, run);
    } else if e.Creating? || e.RequestingRun? {
      hide Apply;
      RowEventsWait(l, e, run);
    } else {
      hide ClaimDueRun;
      hide CompleteRun;
      hide FailRun;
      match e
      case ClaimingRun(pending, active, now, until, id, token) => ClaimWaits(l, pending, active, now, until, id, token, run);
      case Completing(id, token, outcome, frames, now) => CompleteWaits(l, id, token, outcome, frames, now, run);
      case Failing(id, token, now) => FailWaits(l, id, token, now, run);
    }
  }

  /** Whatever is called in whatever order, the waiting run of an erased job is never claimed: it waits, and every claim
      that comes to it raises, until its job is deleted. */
  lemma {:induction false} ErasedRunsNeverStart(l: Ledger, events: seq<Event>, run: Id)
    requires Inv(l) && (ErasedWaiting(l, run) || Dropped(l, run))
    ensures var l' := Play(l, events); ErasedWaiting(l', run) || Dropped(l', run)
    decreases |events|
  {
    if events != [] {
      var l1 := Apply(l, events[0]);
      ApplyKeeps(l, events[0]);
      RunsKnowJobs(l1);
      if ErasedWaiting(l, run) {
        ApplyWaits(l, events[0], run);
        ApplyGrows(l, events[0]);
        WaitingGrows(l, l1, run);
      } else {
        DroppedStays(l, events[0], run);
      }
      hide Inv;
      hide Apply;
      hide ErasedWaiting;
      ErasedRunsNeverStart(l1, events[1..], run);
    }
  }

  lemma WaitingGrows(l: Ledger, l': Ledger, run: Id)
    requires ErasedWaiting(l, run) && RunWaits(l, l', run) && Grows(l, l')
    ensures ErasedWaiting(l', run) || Dropped(l', run)
  {
    assert RunGrows(l.runs[run], l'.runs[run]) && JobGrows(l.jobs[l.runs[run].job], l'.jobs[l.runs[run].job]);
    hide Grows;
  }

  // ----- Deliveries without a destination -----

  lemma OthersAddNothing(l: Ledger, e: Event)
    requires SchedulesValid(l) && Inv(l) && !e.Completing? && !e.Failing?
    ensures Apply(l, e).deliveries.Keys == l.deliveries.Keys
  {
    if QuietEvent(e) {
      QuietEvents(l, e);
      hide Apply;
      hide Inv;
    } else if e.ClaimingRun? {
      ClaimDueRunFrames(l, e.pending, e.active, e.now, e.until, e.run, e.token);
      hide ClaimDueRun;
      hide Inv;
    } else if e.Creating? || e.RequestingRun? {
      hide Inv;
      hide ActiveRun;
      hide KeyTaken;
      hide ValidJob;
    } else {
      hide Inv;
      EditsAddNothing(l, e);
    }
  }

  lemma EditsAddNothing(l: Ledger, e: Event)
    requires SchedulesValid(l) && (e.Updating? || e.Changing? || e.Deleting?)
    ensures Apply(l, e).deliveries.Keys == l.deliveries.Keys
  {
    hide InvalidateStale;
    hide Redact;
    hide HasSending;
    hide ValidJob;
    hide FramesMove;
    if e.id in l.jobs {
      match e
      case Updating(_, id, edit, _, now) => BumpAddsNothing(l, id, EditedJob(l.jobs[id], edit, now), now);
      case Changing(_, id, _, status, now) => BumpAddsNothing(l, id, ChangedJob(l.jobs[id], status, now), now);
      case Deleting(_, id, _, now) => BumpAddsNothing(l, id, DeletedJob(l.jobs[id]), now);
    }
  }

  lemma BumpAddsNothing(l: Ledger, id: Id, row: Job, now: int)
    requires id in l.jobs
    ensures Bump(l, id, row, now).deliveries.Keys == l.deliveries.Keys
    ensures Redact(Bump(l, id, row, now), id).deliveries.Keys == l.deliveries.Keys
  {
    BumpMoves(l, id, row, now);
    RedactMoves(Bump(l, id, row, now), id);
    hide *;
  }

  /** New deliveries carry the destination their job had in that very state, under an open run of it. */
  ghost predicate Stamped(l: Ledger, l': Ledger) {
    forall f | f in l'.deliveries && f !in l.deliveries ::
      && f.run in l.runs && RunOpen(l.runs[f.run].status) && l.runs[f.run].job in l.jobs
      && l'.deliveries[f].destination == DestinationOf(l.jobs[l.runs[f.run].job].content)
  }

  lemma FinishedStamps(l: Ledger, l': Ledger, run: Id)
    requires RunFinished(l, l', run)
    ensures Stamped(l, l')
  {
  }

  lemma QuietStamps(l: Ledger, l': Ledger)
    requires l'.deliveries.Keys == l.deliveries.Keys
    ensures Stamped(l, l')
  {
  }

  lemma ApplyStamps(l: Ledger, e: Event)
    requires SchedulesValid(l) && Inv(l)
    ensures Stamped(l, Apply(l, e))
  {
    QuietStamps(l, l);
    hide Stamped;
    match e
    case Completing(run, token, outcome, frames, now) =>
      CompleteRunFinishes(l, run, token, outcome, frames, now);
      hide CompleteRun;
      hide Inv;
      hide CountMoves;
      if Apply(l, e) != l {
        FinishedStamps(l, Apply(l, e), run);
      }
    case Failing(run, token, now) =>
      FailRunShape(l, run, token, now);
      hide FailRun;
      hide Inv;
      hide CountMoves;
      var s := FailRun(l, run, token, now);
      if s.Committed? && s.value {
        if l.runs[run].attempts + 1 < MAX_RUN_ATTEMPTS {
          QuietStamps(l, s.ledger);
        } else {
          FinishedStamps(l, s.ledger, run);
        }
      }
    case _ =>
      OthersAddNothing(l, e);
      hide Apply;
      hide Inv;
      QuietStamps(l, Apply(l, e));
  }

  /** Through every later history a delivery keeps what its job had when it was created, so a claim that comes to it
      raises exactly when the content of its job had been erased by then. */
  lemma ClaimRaisesExactlyWhenCreatedErased(l: Ledger, e: Event, later: seq<Event>, f: Frame, rest: seq<Frame>, now: int, until: int, token: Id)
    requires Inv(l) && f !in l.deliveries
    ensures SchedulesValid(l) && Inv(Apply(l, e))
    ensures var l1 := Apply(l, e); var l2 := Play(l1, later);
      f in l1.deliveries && Eligible(l2, f, now) ==>
        && f.run in l.runs && l.runs[f.run].job in l.jobs
        && (ClaimDelivery(l2, [f] + rest, now, until, token).Aborted? <==> l.jobs[l.runs[f.run].job].content.Redacted?)
  {
    RunsKnowJobs(l);
    ApplyKeeps(l, e);
    ApplyStamps(l, e);
    var l1 := Apply(l, e);
    hide Apply;
    PlayGrows(l1, later);
    var l2 := Play(l1, later);
    hide Play;
    LiveFramesOf(l2);
    hide Inv;
    hide LiveFrames;
    if f in l1.deliveries {
      assert FrameGrows(l1.deliveries[f], l2.deliveries[f]);
      hide Grows;
      if Eligible(l2, f, now) {
        assert ([f] + rest)[0] == f;
        DeliveryClaimNeverSuppresses(l2, [f] + rest, now, until, token);
        hide ClaimDelivery;
      }
    }
  }

  ghost predicate AllAddressed(l: Ledger) {
    forall f | f in l.deliveries :: l.deliveries[f].destination.Some?
  }

  lemma ApplyAddressed(l: Ledger, e: Event)
    requires SchedulesValid(l) && Inv(l) && Exact(l) && AllAddressed(l)
    ensures AllAddressed(Apply(l, e))
  {
    var l' := Apply(l, e);
    ApplyStamps(l, e);
    ApplyGrows(l, e);
    hide Apply;
    forall f | f in l'.deliveries ensures l'.deliveries[f].destination.Some? {
      if f in l.deliveries {
        assert FrameGrows(l.deliveries[f], l'.deliveries[f]);
      } else {
        ExactLedgersKeepContent(l, f.run);
      }
    }
    hide Inv;
  }

  lemma {:induction false} PlayAddressed(l: Ledger, events: seq<Event>)
    requires Inv(l) && Exact(l) && AllAddressed(l) && NeverBreaks(l, events)
    ensures AllAddressed(Play(l, events)) && Exact(Play(l, events))
    decreases |events|
  {
    if events != [] {
      RunsKnowJobs(l);
      ApplyKeeps(l, events[0]);
      ErasureStaysExact(l, events[0]);
      ApplyAddressed(l, events[0]);
      hide Exact;
      hide AllAddressed;
      hide Inv;
      hide Apply;
      PlayAddressed(Apply(l, events[0]), events[1..]);
    }
  }

  /** Over histories without the calls that erase too early the delivery claim always leases the first row it is given. */
  lemma DeliveryClaimLeases(events: seq<Event>, picks: seq<Frame>, now: int, until: int, token: Id)
    requires Inv(EMPTY) && NeverBreaks(EMPTY, events)
    ensures var l := Play(EMPTY, events);
      picks != [] && Eligible(l, picks[0], now) ==>
        ClaimDelivery(l, picks, now, until, token) == Committed(SetFrame(l, picks[0], LeasedFrame(l.deliveries[picks[0]], now, until, token)), Some(picks[0]))
  {
    EmptyIsExact();
    PlayAddressed(EMPTY, events);
    var l := Play(EMPTY, events);
    hide Play;
    LiveFramesOf(l);
    hide Inv;
    hide LiveFrames;
    hide NeverBreaks;
    hide Exact;
    if picks != [] && Eligible(l, picks[0], now) {
      DeliveryClaimNeverSuppresses(l, picks, now, until, token);
      hide ClaimDelivery;
    }
  }

  lemma EmptyIsExact()
    ensures Exact(EMPTY) && AllAddressed(EMPTY)
  {
    forall j ensures ExactFor(EMPTY, j) {}
  }

  // ----- Nothing is ever sent without a destination -----

  ghost predicate Addressed(l: Ledger, f: Frame) {
    f in l.deliveries && l.deliveries[f].destination.Some?
  }

  /** Everything workers hold, and everything that was sent, has a destination. */
  ghost predicate WorldAddressed(w: World) {
    && (forall t | t in w.workers :: Addressed(w.ledger, w.workers[t].frame))
    && (forall i | 0 <= i < |w.log| :: Addressed(w.ledger, w.log[i].frame))
  }

  lemma NewWorkersAddressed(w: World, m: Move)
    requires SchedulesValid(w.ledger) && LiveFrames(w.ledger)
    ensures forall t | t in Next(w, m).workers ::
      (t in w.workers && Next(w, m).workers[t].frame == w.workers[t].frame) || Addressed(w.ledger, Next(w, m).workers[t].frame)
    ensures Next(w, m).log == w.log || (exists t, r :: t in w.workers && Next(w, m).log == w.log + [Send(w.workers[t].frame, r)])
  {
    hide AdmitDelivery;
    hide Report;
    hide Apply;
    if m.Claims? && m.picks != [] && Eligible(w.ledger, m.picks[0], m.now) {
      DeliveryClaimNeverSuppresses(w.ledger, m.picks, m.now, m.until, m.token);
      hide ClaimDelivery;
      hide LiveFrames;
    }
    hide Eligible;
  }

  lemma GrowthAddressed(l: Ledger, l': Ledger)
    requires Grows(l, l')
    ensures forall f | Addressed(l, f) :: Addressed(l', f)
  {
    forall f | Addressed(l, f) ensures Addressed(l', f) {
      assert FrameGrows(l.deliveries[f], l'.deliveries[f]);
    }
  }

  lemma KeptAddressed(w: World, w': World)
    requires WorldAddressed(w) && forall f | Addressed(w.ledger, f) :: Addressed(w'.ledger, f)
    requires forall t | t in w'.workers :: (t in w.workers && w'.workers[t].frame == w.workers[t].frame) || Addressed(w.ledger, w'.workers[t].frame)
    requires w'.log == w.log || (exists t, r :: t in w.workers && w'.log == w.log + [Send(w.workers[t].frame, r)])
    ensures WorldAddressed(w')
  {
    hide Addressed;
  }

  lemma NextAddressed(w: World, m: Move)
    requires SchedulesValid(w.ledger) && Inv(w.ledger) && WorldAddressed(w)
    ensures WorldAddressed(Next(w, m))
  {
    LiveFramesOf(w.ledger);
    hide *;
    NewWorkersAddressed(w, m);
    NextGrows(w, m);
    GrowthAddressed(w.ledger, Next(w, m).ledger);
    KeptAddressed(w, Next(w, m));
  }

  lemma {:induction false} UnfoldAddressed(w: World, moves: seq<Move>)
    requires Safe(w) && WorldAddressed(w)
    ensures WorldAddressed(Unfold(w, moves))
    decreases |moves|
  {
    if moves != [] {
      SoundWorld(w);
      NextSafe(w, moves[0]);
      NextAddressed(w, moves[0]);
      hide Safe;
      hide Next;
      hide WorldAddressed;
      UnfoldAddressed(Next(w, moves[0]), moves[1..]);
    }
  }

  lemma SoundWorld(w: World)
    requires Safe(w)
    ensures SchedulesValid(w.ledger) && Inv(w.ledger)
  {
    hide Protocol;
    hide Ordered;
  }

  lemma {:induction false} NeverInLog(log: seq<Send>, f: Frame)
    requires forall i | 0 <= i < |log| :: log[i].frame != f
    ensures SendsOf(log, f) == []
    decreases |log|
  {
    if log != [] {
      NeverInLog(log[..|log| - 1], f);
    }
  }

  /** In every interleaving a delivery without a destination is never sent. */
  lemma UnaddressedAreNeverSent(moves: seq<Move>, f: Frame)
    ensures Safe(START)
    ensures var w := Unfold(START, moves);
      f in w.ledger.deliveries && w.ledger.deliveries[f].destination.None? ==> SendsOf(w.log, f) == []
  {
    StartSafe();
    UnfoldAddressed(START, moves);
    var w := Unfold(START, moves);
    hide Unfold;
    hide Safe;
    if f in w.ledger.deliveries && w.ledger.deliveries[f].destination.None? {
      forall i | 0 <= i < |w.log| ensures w.log[i].frame != f {
        assert Addressed(w.ledger, w.log[i].frame);
      }
      NeverInLog(w.log, f);
    }
  }
}
