/** Every transaction of the cron ledger keeps its invariant, and history only grows. */
module CronTransitions {
  import opened Wrappers
  import opened CronSchedule
  import opened CronLedger
  import opened CronInvariant

  // ----- Changing the row of a job -----

  lemma IdleHasNothingOpen(l: Ledger, id: Id)
    requires Refs(l) && !ActiveRun(l, id)
    ensures forall r | r in l.runs && l.runs[r].job == id :: !RunOpen(l.runs[r].status)
    ensures forall f | f in l.deliveries && l.runs[f.run].job == id :: !FrameOpen(l.deliveries[f].status)
  {
    forall r | r in l.runs && l.runs[r].job == id ensures !Busy(l, r) {}
    forall f | f in l.deliveries && l.runs[f.run].job == id ensures !FrameOpen(l.deliveries[f].status) {
      assert FrameOpen(l.deliveries[f].status) ==> Busy(l, f.run);
    }
  }

  lemma SameBusy(l: Ledger, l': Ledger)
    requires l'.runs == l.runs && l'.deliveries == l.deliveries
    ensures forall r :: Busy(l', r) <==> Busy(l, r)
    ensures OneBusy(l) ==> OneBusy(l')
    ensures forall j :: SuccessfulRuns(l', j) == SuccessfulRuns(l, j)
  {
  }

  lemma SetIdleJobLive(l: Ledger, id: Id, row: Job)
    requires Refs(l) && LiveRuns(l) && LiveFrames(l) && (id in l.jobs ==> !ActiveRun(l, id))
    ensures Refs(SetJob(l, id, row)) && LiveRuns(SetJob(l, id, row)) && LiveFrames(SetJob(l, id, row))
  {
    if id in l.jobs {
      IdleHasNothingOpen(l, id);
    }
    hide ActiveRun;
  }

  lemma SetIdleJobCounts(l: Ledger, id: Id, row: Job)
    requires SchedulesValid(l) && Counted(l) && FramesWhenDone(l) && Refs(l) && WellFormed(row.schedule)
    requires row.successes == if id in l.jobs then l.jobs[id].successes else 0
    ensures SchedulesValid(SetJob(l, id, row)) && Counted(SetJob(l, id, row)) && FramesWhenDone(SetJob(l, id, row))
  {
    hide WellFormed;
    SameBusy(l, SetJob(l, id, row));
    if id !in l.jobs {
      assert SuccessfulRuns(l, id) == {};
    }
    hide SuccessfulRuns;
  }

  /** The row of a job with no open work may change freely, short of its success count. */
  lemma SetIdleJobKeeps(l: Ledger, id: Id, row: Job)
    requires Inv(l) && (id in l.jobs ==> !ActiveRun(l, id)) && WellFormed(row.schedule)
    requires row.successes == if id in l.jobs then l.jobs[id].successes else 0
    ensures Inv(SetJob(l, id, row)) && (id in l.jobs ==> !ActiveRun(SetJob(l, id, row), id))
  {
    var l' := SetJob(l, id, row);
    SetIdleJobLive(l, id, row);
    SetIdleJobCounts(l, id, row);
    SameBusy(l, l');
    hide Busy;
    hide Refs;
    hide LiveRuns;
    hide LiveFrames;
    hide Counted;
    hide SchedulesValid;
    hide FramesWhenDone;
    hide WellFormed;
  }

  lemma CreateKeeps(l: Ledger, id: Id, job: Job, now: int)
    requires Inv(l)
    ensures Inv(After(l, Create(l, id, job, now)))
  {
    if ValidJob(job) && id !in l.jobs {
      SetIdleJobKeeps(l, id, NewJob(job, now));
      hide Inv;
    }
  }

  // ----- Raising the revision and invalidating what is stale -----

  function Bump(l: Ledger, id: Id, row: Job, now: int): Ledger {
    InvalidateStale(SetJob(l, id, row), id, now)
  }

  ghost predicate BumpReady(l: Ledger, id: Id, row: Job) {
    && id in l.jobs && row.revision == l.jobs[id].revision + 1 && row.successes == l.jobs[id].successes
    && WellFormed(row.schedule) && !HasSending(l, id)
  }

  /** A revision bump finishes all open work of its job and touches nothing else. */
  lemma BumpRuns(l: Ledger, id: Id, row: Job, now: int)
    requires LiveRuns(l) && BumpReady(l, id, row)
    ensures var l' := Bump(l, id, row, now);
      l'.runs.Keys == l.runs.Keys && (forall r | r in l.runs :: RunBumped(l.runs[r], l'.runs[r], id))
  {
    hide HasSending;
    hide WellFormed;
    var l' := Bump(l, id, row, now);
    forall r | r in l.runs ensures RunBumped(l.runs[r], l'.runs[r], id) {
      assert RunOpen(l.runs[r].status) && l.runs[r].job == id ==> Permits(l.jobs[id], l.runs[r]);
    }
  }

  lemma BumpFrames(l: Ledger, id: Id, row: Job, now: int)
    requires Refs(l) && LiveFrames(l) && BumpReady(l, id, row)
    ensures var l' := Bump(l, id, row, now);
      l'.deliveries.Keys == l.deliveries.Keys && (forall f | f in l.deliveries :: FrameBumped(l, l', f, id))
  {
    hide WellFormed;
    var l' := Bump(l, id, row, now);
    forall f | f in l.deliveries ensures FrameBumped(l, l', f, id) {
      assert FrameOpen(l.deliveries[f].status) ==> !FrameStale(l, f);
      assert l.deliveries[f].status == Sending ==> !FrameOfJob(l, f, id);
    }
  }

  ghost predicate RunBumped(a: Run, b: Run, id: Id) {
    RunCalm(a, b) && (if a.job == id then !RunOpen(b.status) else b == a)
  }

  ghost predicate FrameBumped(l: Ledger, l': Ledger, f: Frame, id: Id)
    requires f in l.deliveries && f in l'.deliveries
  {
    && f.run in l.runs && FrameCalm(l.deliveries[f], l'.deliveries[f])
    && (if l.runs[f.run].job == id then !FrameOpen(l'.deliveries[f].status) else l'.deliveries[f] == l.deliveries[f])
  }

  lemma BumpKeeps(l: Ledger, id: Id, row: Job, now: int)
    requires Inv(l) && BumpReady(l, id, row)
    ensures Inv(Bump(l, id, row, now)) && !ActiveRun(Bump(l, id, row, now), id)
  {
    var l' := Bump(l, id, row, now);
    BumpRuns(l, id, row, now);
    BumpFrames(l, id, row, now);
    hide InvalidateStale;
    hide HasSending;
    BumpLive(l, l', id);
    BumpBusy(l, l', id);
    BumpCounts(l, l', id);
  }

  ghost predicate Bumped(l: Ledger, l': Ledger, id: Id) {
    && id in l.jobs && l'.jobs.Keys == l.jobs.Keys && (forall j | j in l.jobs && j != id :: l'.jobs[j] == l.jobs[j])
    && l'.runs.Keys == l.runs.Keys && (forall r | r in l.runs :: RunBumped(l.runs[r], l'.runs[r], id))
    && l'.deliveries.Keys == l.deliveries.Keys && (forall f | f in l.deliveries :: FrameBumped(l, l', f, id))
  }

  lemma BumpLive(l: Ledger, l': Ledger, id: Id)
    requires Refs(l) && LiveRuns(l) && LiveFrames(l) && Bumped(l, l', id)
    ensures Refs(l') && LiveRuns(l') && LiveFrames(l')
  {
    forall r | r in l'.runs
      ensures l'.runs[r].job in l'.jobs
      ensures RunOpen(l'.runs[r].status) ==> Permits(l'.jobs[l'.runs[r].job], l'.runs[r])
    {
      assert RunBumped(l.runs[r], l'.runs[r], id);
    }
    forall f | f in l'.deliveries
      ensures f.run in l'.runs && RunDone(l'.runs[f.run].status) && l'.deliveries[f].jobRevision == l'.runs[f.run].revision
      ensures FrameOpen(l'.deliveries[f].status) ==> !FrameStale(l', f) && Admissible(l', f)
    {
      assert FrameBumped(l, l', f, id) && RunBumped(l.runs[f.run], l'.runs[f.run], id);
    }
  }

  lemma BumpBusy(l: Ledger, l': Ledger, id: Id)
    requires OneBusy(l) && Bumped(l, l', id)
    ensures OneBusy(l') && !ActiveRun(l', id)
  {
    forall r | Busy(l', r) ensures Busy(l, r) && l'.runs[r].job != id && l'.runs[r].job == l.runs[r].job {
      assert RunBumped(l.runs[r], l'.runs[r], id);
      if !RunOpen(l'.runs[r].status) {
        var f :| f in l'.deliveries && f.run == r && FrameOpen(l'.deliveries[f].status);
        assert FrameBumped(l, l', f, id);
      }
    }
  }

  lemma BumpCounts(l: Ledger, l': Ledger, id: Id)
    requires SchedulesValid(l) && Counted(l) && FramesWhenDone(l) && Bumped(l, l', id)
    requires l'.jobs[id].successes == l.jobs[id].successes && WellFormed(l'.jobs[id].schedule)
    ensures Counted(l') && SchedulesValid(l') && FramesWhenDone(l')
  {
    hide FrameBumped;
    hide WellFormed;
    forall r | r in l.runs ensures RunCalm(l.runs[r], l'.runs[r]) {
      assert RunBumped(l.runs[r], l'.runs[r], id);
    }
    hide RunBumped;
    hide RunOpen;
    forall j ensures SuccessfulRuns(l', j) == SuccessfulRuns(l, j) {}
  }

  lemma EditableReady(l: Ledger, owner: Id, id: Id, expected: nat, row: Job)
    requires Editable(l, owner, id, expected) && row.revision == l.jobs[id].revision + 1
    requires row.successes == l.jobs[id].successes && WellFormed(row.schedule)
    ensures BumpReady(l, id, row)
  {
  }

  lemma UpdateKeeps(l: Ledger, owner: Id, id: Id, edit: Job, expected: nat, now: int)
    requires Inv(l)
    ensures Inv(After(l, Update(l, owner, id, edit, expected, now)))
  {
    if ValidJob(edit) && Editable(l, owner, id, expected) && !Terminal(l.jobs[id].status) {
      var row := EditedJob(l.jobs[id], edit, now);
      EditableReady(l, owner, id, expected, row);
      hide EditedJob;
      hide Inv;
      hide InvalidateStale;
      BumpKeeps(l, id, row, now);
    }
  }

  lemma BumpRedactKeeps(l: Ledger, id: Id, row: Job, now: int)
    requires Inv(l) && BumpReady(l, id, row)
    ensures Inv(Bump(l, id, row, now)) && Inv(Redact(Bump(l, id, row, now), id))
  {
    hide Redact;
    BumpKeeps(l, id, row, now);
    hide Inv;
    hide Bump;
    hide Quiet;
    RedactQuiet(Bump(l, id, row, now), id);
    QuietKeeps(Bump(l, id, row, now), Redact(Bump(l, id, row, now), id));
  }

  lemma ChangeStatusKeeps(l: Ledger, owner: Id, id: Id, expected: nat, status: JobStatus, now: int)
    requires Inv(l)
    ensures Inv(After(l, ChangeStatus(l, owner, id, expected, status, now)))
  {
    if Editable(l, owner, id, expected) && !Terminal(l.jobs[id].status) {
      var row := ChangedJob(l.jobs[id], status, now);
      EditableReady(l, owner, id, expected, row);
      hide ChangedJob;
      hide Inv;
      hide InvalidateStale;
      hide Redact;
      BumpRedactKeeps(l, id, row, now);
    }
  }

  lemma DeleteKeeps(l: Ledger, owner: Id, id: Id, expected: nat, now: int)
    requires Inv(l)
    ensures Inv(After(l, Delete(l, owner, id, expected, now)))
  {
    if Editable(l, owner, id, expected) {
      var row := DeletedJob(l.jobs[id]);
      EditableReady(l, owner, id, expected, row);
      hide DeletedJob;
      hide Inv;
      hide InvalidateStale;
      hide Redact;
      BumpRedactKeeps(l, id, row, now);
    }
  }

  // ----- Starting a run -----

  ghost predicate FreshRun(l: Ledger, id: Id, row: Run) {
    && id !in l.runs && row.job in l.jobs && row.status == RunPending && row.outcome == None && Permits(l.jobs[row.job], row)
    && !ActiveRun(l, row.job)
  }

  lemma AddRunBusy(l: Ledger, id: Id, row: Run)
    requires Refs(l) && OneBusy(l) && FreshRun(l, id, row)
    ensures OneBusy(SetRun(l, id, row))
  {
    var l' := SetRun(l, id, row);
    forall r | Busy(l', r) ensures r == id || (Busy(l, r) && l.runs[r].job != row.job) {
      assert r in l.runs && Busy(l, r) ==> l.runs[r].job != row.job;
    }
    hide Busy;
    hide ActiveRun;
  }

  lemma AddRunLive(l: Ledger, id: Id, row: Run)
    requires Refs(l) && LiveRuns(l) && LiveFrames(l) && FreshRun(l, id, row)
    ensures Refs(SetRun(l, id, row)) && LiveRuns(SetRun(l, id, row)) && LiveFrames(SetRun(l, id, row))
  {
    hide ActiveRun;
    var l' := SetRun(l, id, row);
    forall f | f in l.deliveries && FrameOpen(l.deliveries[f].status) ensures !FrameStale(l', f) && Admissible(l', f) {
      assert f.run != id && !FrameStale(l, f) && Admissible(l, f);
    }
  }

  lemma AddRunCounts(l: Ledger, id: Id, row: Run)
    requires SchedulesValid(l) && Counted(l) && FramesWhenDone(l) && FreshRun(l, id, row)
    ensures SchedulesValid(SetRun(l, id, row)) && Counted(SetRun(l, id, row)) && FramesWhenDone(SetRun(l, id, row))
  {
    hide ActiveRun;
    hide WellFormed;
    hide Permits;
    forall j ensures SuccessfulRuns(SetRun(l, id, row), j) == SuccessfulRuns(l, j) {}
    hide SuccessfulRuns;
  }

  lemma AddRunKeeps(l: Ledger, id: Id, row: Run)
    requires Inv(l) && FreshRun(l, id, row)
    ensures Inv(SetRun(l, id, row))
  {
    AddRunBusy(l, id, row);
    AddRunLive(l, id, row);
    AddRunCounts(l, id, row);
  }

  lemma InsertRunKeeps(l: Ledger, id: Id, job: Id, due: int, trigger: Trigger, now: int)
    requires Inv(l) && job in l.jobs && !ActiveRun(l, job)
    requires l.jobs[job].status == if trigger == ByLifecycle then Ended else Active
    ensures Inv(After(l, InsertRun(l, id, job, due, trigger, now)))
  {
    if id !in l.runs && !KeyTaken(l, job, due, trigger) {
      var j := l.jobs[job];
      var row := NewRun(j, job, due, trigger, now);
      var l1 := SetJob(l, job, j.(lastDue := Some(due)));
      SetIdleJobKeeps(l, job, j.(lastDue := Some(due)));
      hide Inv;
      assert FreshRun(l, id, row) && FreshRun(l1, id, row);
      hide FreshRun;
      AddRunKeeps(l, id, row);
      AddRunKeeps(l1, id, row);
    }
  }

  lemma ManualRunKeeps(l: Ledger, owner: Id, job: Id, expected: Option<nat>, id: Id, now: int)
    requires Inv(l)
    ensures Inv(After(l, RequestManualRun(l, owner, job, expected, id, now)))
  {
    hide Inv;
    hide InsertRun;
    hide ActiveRun;
    if job in l.jobs && l.jobs[job].status == Active && !ActiveRun(l, job) {
      InsertRunKeeps(l, id, job, now, Manually, now);
    }
  }

  lemma LeaseRunKeeps(l: Ledger, run: Id, until: int, token: Id)
    requires Inv(l) && run in l.runs && l.runs[run].status == RunPending
    ensures Inv(LeaseRun(l, run, until, token))
  {
    var row := l.runs[run].(status := RunLeased, leaseUntil := Some(until), token := Some(token));
    hide Inv;
    SetRunQuiet(l, run, row);
    hide Quiet;
    QuietKeeps(l, SetRun(l, run, row));
  }

  lemma StartRunKeeps(l: Ledger, job: Id, due: int, trigger: Trigger, now: int, until: int, id: Id, token: Id)
    requires OwedReady(l, job, trigger)
    ensures Inv(After(l, StartRun(l, job, due, trigger, now, until, id, token)))
  {
    InsertRunKeeps(l, id, job, due, trigger, now);
    hide Inv;
    hide WillEnd;
    hide ActiveRun;
    hide WellFormed;
    hide KeyTaken;
    hide LeaseRun;
    match InsertRun(l, id, job, due, trigger, now)
    case Aborted =>
    case Committed(l', _) => LeaseRunKeeps(l', id, until, token);
  }

  ghost predicate OwedReady(l: Ledger, job: Id, trigger: Trigger) {
    && Inv(l) && job in l.jobs && !ActiveRun(l, job) && WellFormed(l.jobs[job].schedule)
    && l.jobs[job].status == if trigger == ByLifecycle then Ended else Active
  }

  lemma OwedKeeps(l: Ledger, job: Id, now: int)
    requires OwedReady(l, job, BySchedule)
    ensures match WhatIsOwed(l, job, now)
            case OwedRaised => true
            case Nothing(l') => OwedReady(l', job, BySchedule)
            case Owed(l', _, trigger) => OwedReady(l', job, trigger)
  {
    var j := l.jobs[job];
    OwedCases(l, job, now);
    hide WhatIsOwed;
    SetIdleJobKeeps(l, job, j.(pausedAt := None));
    SetIdleJobKeeps(l, job, EndedJob(j));
    hide Inv;
    hide ActiveRun;
    hide WellFormed;
  }

  lemma OwedCases(l: Ledger, job: Id, now: int)
    requires job in l.jobs && WellFormed(l.jobs[job].schedule)
    ensures var j := l.jobs[job]; var o := WhatIsOwed(l, job, now);
      && (o.Nothing? ==> o.ledger == l || o.ledger == SetJob(l, job, j.(pausedAt := None)))
      && (o.Owed? && o.trigger == ByLifecycle ==> o.ledger == SetJob(l, job, EndedJob(j)))
      && (o.Owed? && o.trigger != ByLifecycle ==> o.ledger == l || o.ledger == SetJob(l, job, j.(pausedAt := None)))
  {
    hide Due;
    hide CatchUp;
    hide EndedJob;
    hide SetJob;
  }

  lemma {:induction false} ClaimJobsKeeps(l: Ledger, scan: seq<Id>, now: int, until: int, id: Id, token: Id)
    requires SchedulesValid(l) && Inv(l)
    ensures Inv(After(l, ClaimJobs(l, scan, now, until, id, token)))
    decreases |scan|
  {
    hide WhatIsOwed;
    hide ActiveRun;
    hide StartRun;
    if scan != [] && scan[0] in l.jobs && l.jobs[scan[0]].status == Active {
      if ActiveRun(l, scan[0]) {
        ClaimJobsKeeps(l, scan[1..], now, until, id, token);
      } else {
        OwedKeeps(l, scan[0], now);
        hide Inv;
        hide WellFormed;
        match WhatIsOwed(l, scan[0], now)
        case OwedRaised =>
        case Nothing(l') => ClaimJobsKeeps(l', scan[1..], now, until, id, token);
        case Owed(l', due, trigger) => StartRunKeeps(l', scan[0], due, trigger, now, until, id, token);
      }
    }
  }

  lemma ClaimDueRunKeeps(l: Ledger, pending: seq<Id>, active: seq<Id>, now: int, until: int, id: Id, token: Id)
    requires SchedulesValid(l) && Inv(l)
    ensures Inv(After(l, ClaimDueRun(l, pending, active, now, until, id, token)))
  {
    ClaimPendingQuiet(l, pending, now, until, token);
    var l' := After(l, ClaimPending(l, pending, now, until, token));
    QuietKeeps(l, l');
    hide Inv;
    hide ClaimPending;
    hide ClaimJobs;
    if SchedulesValid(l') {
      ClaimJobsKeeps(l', active, now, until, id, token);
    }
  }

  // ----- Finishing a run -----

  lemma {:induction false} AddFramesShape(l: Ledger, run: Id, frames: seq<string>, destination: Option<string>, revision: nat, now: int)
    requires !HasFrames(l, run)
    ensures var s := AddFrames(l, run, frames, destination, revision, now);
      && s.Committed? && s.ledger.jobs == l.jobs && s.ledger.runs == l.runs
      && (forall f :: f in s.ledger.deliveries <==> f in l.deliveries || (f.run == run && f.sequence < |frames|))
      && (forall f | f in l.deliveries :: s.ledger.deliveries[f] == l.deliveries[f])
      && (forall k: nat | k < |frames| :: s.ledger.deliveries[Frame(run, k)] == NewDelivery(frames[k], destination, revision, now))
  {
    if frames != [] {
      var last := |frames| - 1;
      AddFramesShape(l, run, frames[..last], destination, revision, now);
      assert forall k: nat | k < last :: frames[..last][k] == frames[k];
      assert Frame(run, last) !in l.deliveries;
    }
  }

  predicate BrandNew(d: Delivery) {
    d.status == Pending && d.attempts == 0
  }

  /** A finished run: its row, the row of its job, and its new deliveries, which are the only other change. */
  ghost predicate RunFinished(l: Ledger, l': Ledger, run: Id) {
    && run in l.runs && RunOpen(l.runs[run].status) && l.runs[run].job in l.jobs
    && var job := l.runs[run].job;
    && l'.jobs.Keys == l.jobs.Keys && (forall j | j in l.jobs && j != job :: l'.jobs[j] == l.jobs[j])
    && l'.jobs[job] == l.jobs[job].(status := l'.jobs[job].status, successes := l'.jobs[job].successes)
    && (l'.jobs[job].status == l.jobs[job].status || l'.jobs[job].status == Ended)
    && l'.runs.Keys == l.runs.Keys && (forall r | r in l.runs && r != run :: l'.runs[r] == l.runs[r])
    && RunDone(l'.runs[run].status) && l'.runs[run].job == job && l'.runs[run].revision == l.runs[run].revision
    && l'.runs[run].trigger == l.runs[run].trigger && l'.runs[run].scheduledFor == l.runs[run].scheduledFor
    && l'.runs[run].outcome.Some?
    && (forall f | f in l.deliveries :: f in l'.deliveries && l'.deliveries[f] == l.deliveries[f])
    && (forall f | f in l'.deliveries && f !in l.deliveries :: f.run == run && BrandNew(l'.deliveries[f]) && l'.deliveries[f].jobRevision == l.runs[run].revision
          && l'.deliveries[f].destination == DestinationOf(l.jobs[job].content))
    && Frame(run, 0) in l'.deliveries && Frame(run, 0) !in l.deliveries
  }

  lemma OpenRunHasNoFrames(l: Ledger, run: Id)
    requires Refs(l) && run in l.runs && RunOpen(l.runs[run].status)
    ensures !HasFrames(l, run)
  {
  }

  lemma RunFinishedLive(l: Ledger, l': Ledger, run: Id)
    requires Refs(l) && LiveRuns(l) && OneBusy(l) && RunFinished(l, l', run)
    ensures Refs(l') && LiveRuns(l')
  {
    assert Busy(l, run);
    forall r | r in l'.runs && RunOpen(l'.runs[r].status) ensures Permits(l'.jobs[l'.runs[r].job], l'.runs[r]) {
      assert Busy(l, r);
    }
  }

  lemma RunFinishedDone(l: Ledger, l': Ledger, run: Id)
    requires SchedulesValid(l) && FramesWhenDone(l) && RunFinished(l, l', run)
    ensures SchedulesValid(l') && FramesWhenDone(l')
  {
    hide WellFormed;
  }

  lemma RunFinishedFrames(l: Ledger, l': Ledger, run: Id)
    requires Refs(l) && LiveRuns(l) && LiveFrames(l) && RunFinished(l, l', run)
    ensures LiveFrames(l')
  {
    assert Permits(l.jobs[l.runs[run].job], l.runs[run]);
    forall f | f in l'.deliveries && FrameOpen(l'.deliveries[f].status) ensures !FrameStale(l', f) && Admissible(l', f) {
      if f in l.deliveries {
        assert !FrameStale(l, f) && Admissible(l, f);
      }
    }
  }

  lemma RunFinishedBusy(l: Ledger, l': Ledger, run: Id)
    requires OneBusy(l) && RunFinished(l, l', run)
    ensures OneBusy(l')
  {
    forall r | Busy(l', r) ensures Busy(l, r) && l'.runs[r].job == l.runs[r].job {
      if r != run && !RunOpen(l.runs[r].status) {
        var f :| f in l'.deliveries && f.run == r && FrameOpen(l'.deliveries[f].status);
        assert f in l.deliveries;
      }
    }
    hide Busy;
  }

  lemma RunFinishedSuccesses(l: Ledger, l': Ledger, run: Id, job: Id)
    requires RunFinished(l, l', run) && l.runs[run].outcome == None
    ensures var more := job == l.runs[run].job && l'.runs[run].outcome == Some(SucceededOutcome);
      |SuccessfulRuns(l', job)| == |SuccessfulRuns(l, job)| + if more then 1 else 0
  {
    assert run !in SuccessfulRuns(l, job);
    if job == l.runs[run].job && l'.runs[run].outcome == Some(SucceededOutcome) {
      assert SuccessfulRuns(l', job) == SuccessfulRuns(l, job) + {run};
    } else {
      assert SuccessfulRuns(l', job) == SuccessfulRuns(l, job);
    }
  }

  ghost predicate CountMoves(l: Ledger, l': Ledger, run: Id)
    requires RunFinished(l, l', run)
  {
    var job := l.runs[run].job;
    l'.jobs[job].successes == l.jobs[job].successes + if l'.runs[run].outcome == Some(SucceededOutcome) then 1 else 0
  }

  lemma RunFinishedCounts(l: Ledger, l': Ledger, run: Id)
    requires Counted(l) && FramesWhenDone(l) && RunFinished(l, l', run) && CountMoves(l, l', run)
    ensures Counted(l')
  {
    assert l.runs[run].outcome == None;
    forall j | j in l'.jobs ensures l'.jobs[j].successes == |SuccessfulRuns(l', j)| {
      RunFinishedSuccesses(l, l', run, j);
      hide SuccessfulRuns;
    }
  }

  lemma RunFinishedKeeps(l: Ledger, l': Ledger, run: Id)
    requires Inv(l) && RunFinished(l, l', run) && CountMoves(l, l', run)
    ensures Inv(l')
  {
    RunFinishedLive(l, l', run);
    RunFinishedDone(l, l', run);
    RunFinishedFrames(l, l', run);
    RunFinishedBusy(l, l', run);
    RunFinishedCounts(l, l', run);
  }

  lemma FinishedShape(l: Ledger, run: Id, row: Run, job: Job, frames: seq<string>, now: int)
    requires run in l.runs && RunOpen(l.runs[run].status) && l.runs[run].job in l.jobs && !HasFrames(l, run) && frames != []
    requires var j := l.jobs[l.runs[run].job];
      job == j.(status := job.status, successes := job.successes) && (job.status == j.status || job.status == Ended)
    requires RunDone(row.status) && row.outcome.Some? && row.job == l.runs[run].job && row.revision == l.runs[run].revision
    requires row.trigger == l.runs[run].trigger && row.scheduledFor == l.runs[run].scheduledFor
    requires job.successes == l.jobs[l.runs[run].job].successes + if row.outcome == Some(SucceededOutcome) then 1 else 0
    ensures var s := AddFrames(l, run, frames, DestinationOf(l.jobs[l.runs[run].job].content), l.runs[run].revision, now);
      && s.Committed?
      && var l' := Finished(l, run, row, job, s.ledger.deliveries); RunFinished(l, l', run) && CountMoves(l, l', run)
  {
    AddFramesShape(l, run, frames, DestinationOf(l.jobs[l.runs[run].job].content), l.runs[run].revision, now);
    hide AddFrames;
    hide HasFrames;
  }

  lemma CompletionFinishes(l: Ledger, run: Id, outcome: RunOutcome, frames: seq<string>, ends: bool, now: int)
    requires run in l.runs && RunOpen(l.runs[run].status) && l.runs[run].job in l.jobs && !HasFrames(l, run) && frames != []
    ensures var s := AddFrames(l, run, frames, DestinationOf(l.jobs[l.runs[run].job].content), l.runs[run].revision, now); var row := l.runs[run]; var j := l.jobs[row.job];
      && s.Committed?
      && var l' := Finished(l, run, CompletedRun(row, outcome, frames), EndedIf(Counting(j, outcome), ends), s.ledger.deliveries);
      RunFinished(l, l', run) && CountMoves(l, l', run)
  {
    var row, j := l.runs[run], l.jobs[l.runs[run].job];
    hide HasFrames;
    hide AddFrames;
    FinishedShape(l, run, CompletedRun(row, outcome, frames), EndedIf(Counting(j, outcome), ends), frames, now);
    hide CountMoves;
    hide RunFinished;
  }

  lemma CompleteRunFinishes(l: Ledger, run: Id, token: Id, outcome: RunOutcome, frames: seq<string>, now: int)
    requires Refs(l) && SchedulesValid(l)
    ensures var s := CompleteRun(l, run, token, outcome, frames, now);
      s.Committed? ==>
        if s.value then RunFinished(l, s.ledger, run) && CountMoves(l, s.ledger, run)
        else s.ledger == l
  {
    hide Ends;
    hide AddFrames;
    hide RunFinished;
    hide CountMoves;
    hide Finished;
    hide EndedIf;
    hide CompletedRun;
    if Holds(l, run, token, true) && ValidFrames(frames) {
      OpenRunHasNoFrames(l, run);
      hide HasFrames;
      hide Permits;
      hide Refs;
      var e := Ends(l.jobs[l.runs[run].job], l.runs[run].scheduledFor, Counting(l.jobs[l.runs[run].job], outcome).successes);
      if e.Ok? {
        CompletionFinishes(l, run, outcome, frames, e.value, now);
      }
    }
  }

  lemma CompleteRunKeeps(l: Ledger, run: Id, token: Id, outcome: RunOutcome, frames: seq<string>, now: int)
    requires Inv(l) && SchedulesValid(l)
    ensures Inv(After(l, CompleteRun(l, run, token, outcome, frames, now)))
  {
    CompleteRunFinishes(l, run, token, outcome, frames, now);
    hide CompleteRun;
    hide Inv;
    var s := CompleteRun(l, run, token, outcome, frames, now);
    if s.Committed? && s.value {
      RunFinishedKeeps(l, s.ledger, run);
    }
  }

  lemma FailRunShape(l: Ledger, run: Id, token: Id, now: int)
    requires Refs(l) && SchedulesValid(l)
    ensures var s := FailRun(l, run, token, now);
      s.Committed? ==>
        if !s.value then s.ledger == l
        else if l.runs[run].attempts + 1 < MAX_RUN_ATTEMPTS then Quiet(l, s.ledger)
        else RunFinished(l, s.ledger, run) && CountMoves(l, s.ledger, run)
  {
    hide LastBefore;
    hide PowerOfTwo;
    if Holds(l, run, token, true) {
      OpenRunHasNoFrames(l, run);
      hide HasFrames;
      hide AddFrames;
      hide Refs;
      hide WellFormed;
      var row, j := l.runs[run], l.jobs[l.runs[run].job];
      if row.attempts + 1 < MAX_RUN_ATTEMPTS {
        SetRunQuiet(l, run, RetriedRun(row, now));
      } else {
        var last := LastBefore(j.schedule, row.scheduledFor, j.endsAt);
        var ends := last.Ok? && (j.schedule.Once? || (last.value && (row.trigger == BySchedule || row.trigger == ByCatchup)));
        FinishedShape(l, run, FailedRun(row, now), EndedIf(j, ends), [FAILURE_NOTICE], now);
      }
      hide CountMoves;
      hide RunFinished;
      hide Quiet;
    }
  }

  lemma FailRunKeeps(l: Ledger, run: Id, token: Id, now: int)
    requires Inv(l) && SchedulesValid(l)
    ensures Inv(After(l, FailRun(l, run, token, now)))
  {
    FailRunShape(l, run, token, now);
    hide FailRun;
    hide Inv;
    hide Quiet;
    var s := FailRun(l, run, token, now);
    if s.Committed? && s.value {
      if l.runs[run].attempts + 1 < MAX_RUN_ATTEMPTS {
        QuietKeeps(l, s.ledger);
      } else {
        RunFinishedKeeps(l, s.ledger, run);
      }
    }
  }
}
