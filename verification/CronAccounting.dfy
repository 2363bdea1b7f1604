/** What the ledger counts and remembers about a job: its success cap and its last occurrence. */
module CronAccounting {
  import opened Wrappers
  import opened CronSchedule
  import opened CronLedger
  import opened CronInvariant
  import opened CronTransitions
  import opened CronHistory

  // ----- The success cap -----

  predicate HasOpenRun(l: Ledger, job: Id) {
    exists r | r in l.runs :: l.runs[r].job == job && RunOpen(l.runs[r].status)
  }

  predicate BelowCap(j: Job) {
    j.maxSuccesses.Some? ==> j.successes < j.maxSuccesses.value
  }

  predicate WithinCap(j: Job) {
    j.maxSuccesses.Some? ==> j.successes <= j.maxSuccesses.value
  }

  /** No job exceeds its cap, and a job that may still run is strictly below it. */
  ghost predicate Capped(l: Ledger) {
    forall j | j in l.jobs ::
      WithinCap(l.jobs[j]) && (!Terminal(l.jobs[j].status) || HasOpenRun(l, j) ==> BelowCap(l.jobs[j]))
  }

  /** An edit that is accepted and sets a cap the job has already reached. */
  predicate LowersCap(l: Ledger, e: Event) {
    && e.Updating? && ValidJob(e.edit) && Editable(l, e.owner, e.id, e.expected) && !Terminal(l.jobs[e.id].status)
    && e.edit.maxSuccesses.Some? && l.jobs[e.id].successes >= e.edit.maxSuccesses.value
  }

  lemma QuietCapped(l: Ledger, l': Ledger)
    requires Quiet(l, l') && Capped(l)
    ensures Capped(l')
  {
    forall j | j in l'.jobs ensures WithinCap(l'.jobs[j]) && (!Terminal(l'.jobs[j].status) || HasOpenRun(l', j) ==> BelowCap(l'.jobs[j])) {
      assert SameJob(l.jobs[j], l'.jobs[j]);
      if HasOpenRun(l', j) {
        var r :| r in l'.runs && l'.runs[r].job == j && RunOpen(l'.runs[r].status);
        assert RunCalm(l.runs[r], l'.runs[r]);
      }
    }
  }

  lemma SetJobCapped(l: Ledger, id: Id, row: Job)
    requires Capped(l) && WithinCap(row) && (!Terminal(row.status) || HasOpenRun(l, id) ==> BelowCap(row))
    ensures Capped(SetJob(l, id, row))
  {
    assert forall j :: HasOpenRun(SetJob(l, id, row), j) == HasOpenRun(l, j);
  }

  lemma BumpCapped(l: Ledger, id: Id, row: Job, now: int)
    requires Inv(l) && Capped(l) && BumpReady(l, id, row)
    ensures Capped(Bump(l, id, row, now)) <==> WithinCap(row) && (!Terminal(row.status) ==> BelowCap(row))
  {
    var l' := Bump(l, id, row, now);
    BumpRuns(l, id, row, now);
    BumpedJobs(l, id, row, now);
    hide Bump;
    hide Inv;
    forall j ensures HasOpenRun(l', j) ==> j != id && HasOpenRun(l, j) {
      if HasOpenRun(l', j) {
        var r :| r in l'.runs && l'.runs[r].job == j && RunOpen(l'.runs[r].status);
        assert RunBumped(l.runs[r], l'.runs[r], id);
      }
    }
    hide HasOpenRun;
  }

  lemma BumpedJobs(l: Ledger, id: Id, row: Job, now: int)
    requires BumpReady(l, id, row)
    ensures Bump(l, id, row, now).jobs == l.jobs[id := row]
  {
  }

  lemma FinishingClosesTheOpenRun(l: Ledger, l': Ledger, run: Id)
    requires OneBusy(l) && RunFinished(l, l', run)
    ensures HasOpenRun(l, l.runs[run].job)
    ensures forall j | HasOpenRun(l', j) :: j != l.runs[run].job && HasOpenRun(l, j)
  {
    assert Busy(l, run);
    forall j | HasOpenRun(l', j) ensures j != l.runs[run].job && HasOpenRun(l, j) {
      var r :| r in l'.runs && l'.runs[r].job == j && RunOpen(l'.runs[r].status);
      assert r in l.runs && Busy(l, r);
    }
  }

  lemma RunFinishedCapped(l: Ledger, l': Ledger, run: Id)
    requires OneBusy(l) && Capped(l) && RunFinished(l, l', run) && CountMoves(l, l', run)
    requires var j := l'.jobs[l.runs[run].job]; !BelowCap(j) && l'.runs[run].outcome == Some(SucceededOutcome) ==> j.status == Ended
    ensures Capped(l')
  {
    FinishingClosesTheOpenRun(l, l', run);
    hide OneBusy;
    hide HasOpenRun;
  }

  lemma CompletionEndsAtCap(l: Ledger, run: Id, token: Id, outcome: RunOutcome, frames: seq<string>, now: int)
    requires SchedulesValid(l)
    ensures var s := CompleteRun(l, run, token, outcome, frames, now);
      (s.Committed? && s.value) ==> (run in l.runs && l.runs[run].job in s.ledger.jobs && var j := s.ledger.jobs[l.runs[run].job]; !BelowCap(j) ==> j.status == Ended)
  {
    hide LastBefore;
    hide AddFrames;
    hide ValidFrames;
    hide Permits;
  }

  lemma CompleteRunCapped(l: Ledger, run: Id, token: Id, outcome: RunOutcome, frames: seq<string>, now: int)
    requires Inv(l) && SchedulesValid(l) && Capped(l)
    ensures Capped(After(l, CompleteRun(l, run, token, outcome, frames, now)))
  {
    CompleteRunFinishes(l, run, token, outcome, frames, now);
    CompletionEndsAtCap(l, run, token, outcome, frames, now);
    hide CompleteRun;
    hide Inv;
    hide Capped;
    var s := CompleteRun(l, run, token, outcome, frames, now);
    if s.Committed? && s.value {
      RunFinishedCapped(l, s.ledger, run);
    }
  }

  lemma FailureSucceedsNever(l: Ledger, run: Id, token: Id, now: int)
    requires SchedulesValid(l)
    ensures var s := FailRun(l, run, token, now);
      (s.Committed? && s.value && l.runs[run].attempts + 1 >= MAX_RUN_ATTEMPTS) ==>
        run in s.ledger.runs && s.ledger.runs[run].outcome == Some(FailedOutcome)
  {
    hide LastBefore;
    hide AddFrames;
    hide Permits;
    hide RetriedRun;
  }

  lemma FailRunCapped(l: Ledger, run: Id, token: Id, now: int)
    requires Inv(l) && SchedulesValid(l) && Capped(l)
    ensures Capped(After(l, FailRun(l, run, token, now)))
  {
    FailRunShape(l, run, token, now);
    FailureSucceedsNever(l, run, token, now);
    hide FailRun;
    hide Inv;
    hide Capped;
    hide Quiet;
    var s := FailRun(l, run, token, now);
    if s.Committed? && s.value {
      if l.runs[run].attempts + 1 < MAX_RUN_ATTEMPTS {
        QuietCapped(l, s.ledger);
      } else {
        RunFinishedCapped(l, s.ledger, run);
      }
    }
  }

  lemma AddRunCapped(l: Ledger, id: Id, row: Run)
    requires Capped(l) && id !in l.runs && row.job in l.jobs && BelowCap(l.jobs[row.job])
    ensures Capped(SetRun(l, id, row))
  {
    forall j ensures HasOpenRun(SetRun(l, id, row), j) ==> j == row.job || HasOpenRun(l, j) {}
    hide HasOpenRun;
  }

  lemma InsertRunCapped(l: Ledger, id: Id, job: Id, due: int, trigger: Trigger, now: int)
    requires Capped(l) && job in l.jobs && BelowCap(l.jobs[job])
    ensures var s := InsertRun(l, id, job, due, trigger, now); Capped(After(l, s))
  {
    hide KeyTaken;
    if id !in l.runs && !KeyTaken(l, job, due, trigger) {
      var j := l.jobs[job];
      var row := NewRun(j, job, due, trigger, now);
      SetJobCapped(l, job, j.(lastDue := Some(due)));
      hide Capped;
      AddRunCapped(l, id, row);
      AddRunCapped(SetJob(l, job, j.(lastDue := Some(due))), id, row);
    }
  }

  lemma StartRunCapped(l: Ledger, job: Id, due: int, trigger: Trigger, now: int, until: int, id: Id, token: Id)
    requires Capped(l) && job in l.jobs && WellFormed(l.jobs[job].schedule) && BelowCap(l.jobs[job])
    ensures Capped(After(l, StartRun(l, job, due, trigger, now, until, id, token)))
  {
    InsertRunCapped(l, id, job, due, trigger, now);
    hide Capped;
    hide WillEnd;
    hide WellFormed;
    hide KeyTaken;
    hide LeaseRun;
    match InsertRun(l, id, job, due, trigger, now)
    case Aborted =>
    case Committed(l', _) => LeaseCapped(l', id, until, token);
  }

  lemma LeaseCapped(l: Ledger, run: Id, until: int, token: Id)
    requires Capped(l) && run in l.runs && l.runs[run].status == RunPending
    ensures Capped(LeaseRun(l, run, until, token))
  {
    hide Capped;
    SetRunQuiet(l, run, l.runs[run].(status := RunLeased, leaseUntil := Some(until), token := Some(token)));
    QuietCapped(l, LeaseRun(l, run, until, token));
  }

  lemma OwedCapped(l: Ledger, job: Id, now: int)
    requires Capped(l) && job in l.jobs && WellFormed(l.jobs[job].schedule) && l.jobs[job].status == Active
    ensures var o := WhatIsOwed(l, job, now);
      o.OwedRaised? || (Capped(o.ledger) && job in o.ledger.jobs && BelowCap(o.ledger.jobs[job]) && o.ledger.jobs[job].schedule == l.jobs[job].schedule)
  {
    var j := l.jobs[job];
    OwedCases(l, job, now);
    hide WhatIsOwed;
    SetJobCapped(l, job, j.(pausedAt := None));
    SetJobCapped(l, job, EndedJob(j));
    hide Capped;
    hide WellFormed;
  }

  lemma {:induction false} ClaimJobsCapped(l: Ledger, scan: seq<Id>, now: int, until: int, id: Id, token: Id)
    requires SchedulesValid(l) && Inv(l) && Capped(l)
    ensures Capped(After(l, ClaimJobs(l, scan, now, until, id, token)))
    decreases |scan|
  {
    hide Capped;
    hide WhatIsOwed;
    hide ActiveRun;
    hide StartRun;
    if scan != [] && scan[0] in l.jobs && l.jobs[scan[0]].status == Active {
      if ActiveRun(l, scan[0]) {
        ClaimJobsCapped(l, scan[1..], now, until, id, token);
      } else {
        OwedKeeps(l, scan[0], now);
        OwedCapped(l, scan[0], now);
        hide WellFormed;
        hide BelowCap;
        hide Inv;
        match WhatIsOwed(l, scan[0], now)
        case OwedRaised =>
        case Nothing(l') => ClaimJobsCapped(l', scan[1..], now, until, id, token);
        case Owed(l', due, trigger) => StartRunCapped(l', scan[0], due, trigger, now, until, id, token);
      }
    }
  }

  lemma ClaimDueRunCapped(l: Ledger, pending: seq<Id>, active: seq<Id>, now: int, until: int, id: Id, token: Id)
    requires SchedulesValid(l) && Inv(l) && Capped(l)
    ensures Capped(After(l, ClaimDueRun(l, pending, active, now, until, id, token)))
  {
    ClaimPendingQuiet(l, pending, now, until, token);
    var l' := After(l, ClaimPending(l, pending, now, until, token));
    QuietCapped(l, l');
    QuietKeeps(l, l');
    hide Inv;
    hide Capped;
    hide Quiet;
    hide ClaimPending;
    hide ClaimJobs;
    if SchedulesValid(l') {
      ClaimJobsCapped(l', active, now, until, id, token);
    }
  }

  lemma ManualRunCapped(l: Ledger, owner: Id, job: Id, expected: Option<nat>, id: Id, now: int)
    requires Capped(l)
    ensures Capped(After(l, RequestManualRun(l, owner, job, expected, id, now)))
  {
    hide ActiveRun;
    hide InsertRun;
    if job in l.jobs && l.jobs[job].status == Active {
      InsertRunCapped(l, id, job, now, Manually, now);
    }
    hide Capped;
  }

  lemma BumpRedactCapped(l: Ledger, id: Id, row: Job, now: int)
    requires Inv(l) && Capped(l) && BumpReady(l, id, row) && WithinCap(row) && (!Terminal(row.status) ==> BelowCap(row))
    ensures Capped(Bump(l, id, row, now)) && Capped(Redact(Bump(l, id, row, now), id))
  {
    var l' := Bump(l, id, row, now);
    BumpCapped(l, id, row, now);
    hide Bump;
    hide Capped;
    hide Redact;
    RedactQuiet(l', id);
    QuietCapped(l', Redact(l', id));
  }

  lemma UpdateCapped(l: Ledger, e: Event)
    requires SchedulesValid(l) && Inv(l) && Capped(l) && e.Updating?
    ensures Capped(Apply(l, e)) <==> !LowersCap(l, e)
  {
    if ValidJob(e.edit) && Editable(l, e.owner, e.id, e.expected) && !Terminal(l.jobs[e.id].status) {
      var row := EditedJob(l.jobs[e.id], e.edit, e.now);
      EditableReady(l, e.owner, e.id, e.expected, row);
      assert row.successes == l.jobs[e.id].successes && !Terminal(row.status) && row.maxSuccesses == e.edit.maxSuccesses;
      hide EditedJob;
      hide Inv;
      hide Capped;
      hide InvalidateStale;
      BumpCapped(l, e.id, row, e.now);
    }
  }

  lemma ChangeStatusCapped(l: Ledger, owner: Id, id: Id, expected: nat, status: JobStatus, now: int)
    requires Inv(l) && Capped(l)
    ensures Capped(After(l, ChangeStatus(l, owner, id, expected, status, now)))
  {
    if Editable(l, owner, id, expected) && !Terminal(l.jobs[id].status) {
      var row := ChangedJob(l.jobs[id], status, now);
      EditableReady(l, owner, id, expected, row);
      assert WithinCap(row) && BelowCap(row);
      hide ChangedJob;
      hide Inv;
      hide Capped;
      hide InvalidateStale;
      hide Redact;
      BumpRedactCapped(l, id, row, now);
    }
  }

  lemma DeleteCapped(l: Ledger, owner: Id, id: Id, expected: nat, now: int)
    requires Inv(l) && Capped(l)
    ensures Capped(After(l, Delete(l, owner, id, expected, now)))
  {
    if Editable(l, owner, id, expected) {
      var row := DeletedJob(l.jobs[id]);
      EditableReady(l, owner, id, expected, row);
      assert WithinCap(row) && Terminal(row.status);
      hide DeletedJob;
      hide Inv;
      hide Capped;
      hide InvalidateStale;
      hide Redact;
      BumpRedactCapped(l, id, row, now);
    }
  }

  lemma CreateCapped(l: Ledger, id: Id, job: Job, now: int)
    requires Capped(l)
    ensures Capped(After(l, Create(l, id, job, now)))
  {
    if id !in l.jobs && ValidJob(job) {
      SetJobCapped(l, id, NewJob(job, now));
    }
    hide Capped;
  }

  lemma WorkEventsCapped(l: Ledger, e: Event)
    requires SchedulesValid(l) && Inv(l) && Capped(l) && !QuietEvent(e) && !e.Updating?
    ensures Capped(Apply(l, e))
  {
    hide Capped;
    hide Inv;
    hide Create;
    hide ChangeStatus;
    hide Delete;
    hide RequestManualRun;
    hide ClaimDueRun;
    hide CompleteRun;
    hide FailRun;
    match e
    case Creating(id, job, now) => CreateCapped(l, id, job, now);
    case Changing(owner, id, expected, status, now) => ChangeStatusCapped(l, owner, id, expected, status, now);
    case Deleting(owner, id, expected, now) => DeleteCapped(l, owner, id, expected, now);
    case RequestingRun(owner, id, revision, run, now) => ManualRunCapped(l, owner, id, revision, run, now);
    case ClaimingRun(pending, active, now, until, run, token) => ClaimDueRunCapped(l, pending, active, now, until, run, token);
    case Completing(run, token, outcome, frames, now) => CompleteRunCapped(l, run, token, outcome, frames, now);
    case Failing(run, token, now) => FailRunCapped(l, run, token, now);
  }

  /** Success caps hold across a store call exactly unless it is an edit that sets a cap already reached. */
  lemma CapsHoldUnlessLowered(l: Ledger, e: Event)
    requires SchedulesValid(l) && Inv(l) && Capped(l)
    ensures Capped(Apply(l, e)) <==> !LowersCap(l, e)
  {
    hide Capped;
    hide Inv;
    if e.Updating? {
      UpdateCapped(l, e);
    } else if QuietEvent(e) {
      QuietEvents(l, e);
      hide Apply;
      QuietCapped(l, Apply(l, e));
    } else {
      WorkEventsCapped(l, e);
    }
  }

  ghost predicate NeverLowersCap(l: Ledger, events: seq<Event>)
    requires Inv(l)
    decreases |events|
  {
    events == [] || (!LowersCap(l, events[0]) && (ApplyKeeps(l, events[0]); NeverLowersCap(Apply(l, events[0]), events[1..])))
  }

  /** Over a whole history without such an edit no job ever has more successful runs than its cap. */
  lemma {:induction false} CapIsNeverExceeded(l: Ledger, events: seq<Event>)
    requires Inv(l) && Capped(l) && NeverLowersCap(l, events)
    ensures var l' := Play(l, events);
      Capped(l') && forall j | j in l'.jobs && l'.jobs[j].maxSuccesses.Some? :: |SuccessfulRuns(l', j)| <= l'.jobs[j].maxSuccesses.value
    decreases |events|
  {
    if events != [] {
      ApplyKeeps(l, events[0]);
      CapsHoldUnlessLowered(l, events[0]);
      CapIsNeverExceeded(Apply(l, events[0]), events[1..]);
    }
  }
}
