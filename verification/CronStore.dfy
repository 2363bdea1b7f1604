/** The ledger as it is held: three tables updated in place, one method per store call. */
module CronStore {
  import opened Wrappers
  import opened CronSchedule
  import opened CronLedger
  import opened CronInvariant
  import opened CronTransitions

  /** How a method that may raise relates to its transaction: a raise leaves the tables as they were. */
  ghost predicate Outcome<T(!new)>(before: Ledger, step: Step<T>, after: Ledger, r: Result<T>) {
    match step
    case Aborted => r == Raised && after == before
    case Committed(l, v) => r == Ok(v) && after == l
  }

  class Store {
    var jobs: map<Id, Job>
    var runs: map<Id, Run>
    var deliveries: map<Frame, Delivery>

    function State(): Ledger
      reads this
    {
      Ledger(jobs, runs, deliveries)
    }

    constructor ()
      ensures State() == EMPTY
    {
      jobs, runs, deliveries := map[], map[], map[];
    }

    method Rollback(saved: Ledger)
      modifies this
      ensures State() == saved
    {
      jobs, runs, deliveries := saved.jobs, saved.runs, saved.deliveries;
    }

    // ----- Parts of transactions -----

    method Invalidate(job: Id, revision: nat, now: int)
      requires job in jobs && jobs[job].revision == revision
      modifies this
      ensures State() == InvalidateStale(old(State()), job, now)
    {
      var before := State();
      runs := map r | r in runs :: InvalidatedRun(runs[r], job, revision);
      deliveries := map f | f in deliveries :: StaleDelivery(before, f, job, revision, now);
    }

    method RedactTerminalIfReady(job: Id) returns (erased: bool)
      modifies this
      ensures State() == Redact(old(State()), job)
      ensures erased <==> job in old(jobs) && Terminal(old(jobs)[job].status) && !HasOpenFrame(old(State()), job)
    {
      var before := State();
      if job !in jobs || !Terminal(jobs[job].status) || HasOpenFrame(before, job) {
        return false;
      }
      runs := map r | r in runs :: if runs[r].job == job then runs[r].(output := None) else runs[r];
      deliveries := map f | f in deliveries :: if FrameOfJob(before, f, job) then deliveries[f].(output := None) else deliveries[f];
      jobs := jobs[job := jobs[job].(content := Redacted)];
      return true;
    }

    method PaceNext(f: Frame, now: int, pace: nat)
      modifies this
      ensures State() == PaceFrame(old(State()), f, now, pace)
    {
      if pace == 0 || f !in deliveries || !Waiting(deliveries[f].status) {
        return;
      }
      var d := deliveries[f];
      var availableAt := now + pace;
      deliveries := deliveries[f := d.(availableAt := if d.availableAt < availableAt then availableAt else d.availableAt, updatedAt := now)];
    }

    method PaceRun(run: Id, now: int, pace: nat)
      modifies this
      ensures State() == PaceFirst(old(State()), run, now, pace)
    {
      var next := FirstWaiting(State(), run, 0, 3);
      if next.Some? {
        PaceNext(next.value, now, pace);
      }
    }

    // ----- Jobs -----

    method Add(id: Id, job: Job, now: int) returns (r: Result<()>)
      modifies this
      ensures Outcome(old(State()), Create(old(State()), id, job, now), State(), r)
    {
      if !ValidJob(job) {
        return Raised;
      }
      if id !in jobs {
        jobs := jobs[id := NewJob(job, now)];
      }
      return Ok(());
    }

    method Edit(owner: Id, id: Id, edit: Job, expected: nat, now: int) returns (r: Result<bool>)
      modifies this
      ensures Outcome(old(State()), Update(old(State()), owner, id, edit, expected, now), State(), r)
    {
      if !ValidJob(edit) {
        return Raised;
      }
      if !Editable(State(), owner, id, expected) || Terminal(jobs[id].status) {
        return Ok(false);
      }
      jobs := jobs[id := EditedJob(jobs[id], edit, now)];
      Invalidate(id, jobs[id].revision, now);
      return Ok(true);
    }

    /** `pause`, `resume` and `cancel`. */
    method Change(owner: Id, id: Id, expected: nat, status: JobStatus, now: int) returns (r: Result<bool>)
      modifies this
      ensures Outcome(old(State()), ChangeStatus(old(State()), owner, id, expected, status, now), State(), r)
    {
      if !Editable(State(), owner, id, expected) || Terminal(jobs[id].status) {
        return Ok(false);
      }
      jobs := jobs[id := ChangedJob(jobs[id], status, now)];
      Invalidate(id, jobs[id].revision, now);
      if status == Cancelled {
        var _ := RedactTerminalIfReady(id);
      }
      return Ok(true);
    }

    method Remove(owner: Id, id: Id, expected: nat, now: int) returns (r: Result<bool>)
      modifies this
      ensures Outcome(old(State()), Delete(old(State()), owner, id, expected, now), State(), r)
    {
      if !Editable(State(), owner, id, expected) {
        return Ok(false);
      }
      jobs := jobs[id := DeletedJob(jobs[id])];
      Invalidate(id, jobs[id].revision, now);
      var _ := RedactTerminalIfReady(id);
      return Ok(true);
    }

    // ----- Runs -----

    method AddRun(id: Id, job: Id, due: int, trigger: Trigger, now: int) returns (r: Result<()>)
      requires job in jobs
      modifies this
      ensures Outcome(old(State()), InsertRun(old(State()), id, job, due, trigger, now), State(), r)
    {
      if id in runs || KeyTaken(State(), job, due, trigger) {
        return Raised;
      }
      runs := runs[id := NewRun(jobs[job], job, due, trigger, now)];
      if trigger == BySchedule || trigger == ByCatchup {
        jobs := jobs[job := jobs[job].(lastDue := Some(due))];
      }
      return Ok(());
    }

    method RunNow(owner: Id, job: Id, expected: Option<nat>, id: Id, now: int) returns (r: Result<bool>)
      modifies this
      ensures Outcome(old(State()), RequestManualRun(old(State()), owner, job, expected, id, now), State(), r)
    {
      if || job !in jobs || jobs[job].owner != owner || jobs[job].status != Active
         || (expected.Some? && expected.value != jobs[job].revision) || ActiveRun(State(), job)
      {
        return Ok(false);
      }
      var inserted := AddRun(id, job, now, Manually, now);
      return if inserted.Raised? then Raised else Ok(true);
    }

    method Lease(run: Id, until: int, token: Id)
      requires run in runs
      modifies this
      ensures State() == LeaseRun(old(State()), run, until, token)
    {
      runs := runs[run := runs[run].(status := RunLeased, leaseUntil := Some(until), token := Some(token))];
    }

    /** The first loop: lease a waiting run, invalidating those whose fence fails on the way. */
    method ClaimWaiting(pending: seq<Id>, now: int, until: int, token: Id) returns (r: Result<Option<Id>>)
      requires SchedulesValid(State())
      modifies this
      ensures Outcome(old(State()), ClaimPending(old(State()), pending, now, until, token), State(), r)
    {
      var saved := State();
      for i := 0 to |pending|
        invariant SchedulesValid(State())
        invariant ClaimPending(State(), pending[i..], now, until, token) == ClaimPending(saved, pending, now, until, token)
      {
        hide WillEnd;
        hide WellFormed;
        var id := pending[i];
        assert pending[i..][0] == id && pending[i..][1..] == pending[i + 1..];
        if !Claimable(State(), id, now) || runs[id].job !in jobs {
          Rollback(saved);
          return Raised;
        }
        var run, job := runs[id], jobs[runs[id].job];
        var lifecycleRetry := run.trigger == ByLifecycle && run.revision == job.revision && job.status == Ended;
        if (job.status != Active && !lifecycleRetry) || run.revision != job.revision {
          runs := runs[id := run.(status := Invalidated, leaseUntil := None)];
        } else {
          var final := WillEnd(job, run.scheduledFor, run.trigger);
          if job.content.Redacted? || final.Raised? {
            Rollback(saved);
            return Raised;
          }
          Lease(id, until, token);
          return Ok(Some(id));
        }
      }
      return Ok(None);
    }

    /** What an idle active job owes, settling its pause or its end on the way. */
    method Owes(job: Id, now: int) returns (r: Result<Option<(int, Trigger)>>)
      requires job in jobs && WellFormed(jobs[job].schedule)
      modifies this
      ensures match WhatIsOwed(old(State()), job, now)
              case OwedRaised => r == Raised && State() == old(State())
              case Nothing(l) => r == Ok(None) && State() == l
              case Owed(l, due, trigger) => r == Ok(Some((due, trigger))) && State() == l
    {
      hide Due;
      hide CatchUp;
      var row := jobs[job];
      if row.endsAt.Some? && now >= row.endsAt.value {
        var due := Due(row.schedule, row.lastDue, row.endsAt.value - 1, row.anchor);
        if due.Raised? {
          return Raised;
        }
        if due.value.Some? {
          return Ok(Some((due.value.value, BySchedule)));
        }
        jobs := jobs[job := EndedJob(row)];
        return Ok(Some((now, ByLifecycle)));
      } else if row.pausedAt.Some? {
        var due := CatchUp(row.schedule, row.pausedAt.value, now);
        if due.Raised? {
          return Raised;
        }
        jobs := jobs[job := row.(pausedAt := None)];
        return Ok(if due.value.Some? then Some((due.value.value, ByCatchup)) else None);
      } else {
        var due := Due(row.schedule, row.lastDue, now, row.anchor);
        if due.Raised? {
          return Raised;
        }
        return Ok(if due.value.Some? then Some((due.value.value, BySchedule)) else None);
      }
    }

    method Start(job: Id, due: int, trigger: Trigger, now: int, until: int, id: Id, token: Id) returns (r: Result<Option<Id>>)
      requires job in jobs && WellFormed(jobs[job].schedule)
      modifies this
      ensures Outcome(old(State()), StartRun(old(State()), job, due, trigger, now, until, id, token), State(), r)
    {
      hide WillEnd;
      hide KeyTaken;
      var saved := State();
      var inserted := AddRun(id, job, due, trigger, now);
      if inserted.Raised? {
        return Raised;
      }
      Lease(id, until, token);
      var final := WillEnd(saved.jobs[job], due, trigger);
      if final.Raised? {
        Rollback(saved);
        return Raised;
      }
      return Ok(Some(id));
    }

    /** The second loop: the first idle active job that owes an occurrence gets a run. */
    method ClaimIdle(active: seq<Id>, now: int, until: int, id: Id, token: Id) returns (r: Result<Option<Id>>)
      requires SchedulesValid(State())
      modifies this
      ensures Outcome(old(State()), ClaimJobs(old(State()), active, now, until, id, token), State(), r)
    {
      var saved := State();
      for i := 0 to |active|
        invariant SchedulesValid(State())
        invariant ClaimJobs(State(), active[i..], now, until, id, token) == ClaimJobs(saved, active, now, until, id, token)
      {
        hide WhatIsOwed;
        hide StartRun;
        hide ActiveRun;
        hide WellFormed;
        var job := active[i];
        assert active[i..][0] == job && active[i..][1..] == active[i + 1..];
        if job !in jobs || jobs[job].status != Active {
          Rollback(saved);
          return Raised;
        }
        if ActiveRun(State(), job) {
          continue;
        }
        ghost var l := State();
        OwedKeepsSchedules(l, job, now);
        var owed := Owes(job, now);
        if owed.Raised? {
          Rollback(saved);
          return Raised;
        }
        if owed.value.Some? {
          r := Start(job, owed.value.value.0, owed.value.value.1, now, until, id, token);
          if r.Raised? {
            Rollback(saved);
          }
          return;
        }
      }
      return Ok(None);
    }

    /** `claim_due_run`: a waiting run first, then a new one for a job that owes an occurrence. */
    method ClaimRun(pending: seq<Id>, active: seq<Id>, now: int, until: int, id: Id, token: Id) returns (r: Result<Option<Id>>)
      requires SchedulesValid(State())
      modifies this
      ensures Outcome(old(State()), ClaimDueRun(old(State()), pending, active, now, until, id, token), State(), r)
    {
      hide ClaimPending;
      hide ClaimJobs;
      var saved := State();
      PendingKeepsSchedules(saved, pending, now, until, token);
      r := ClaimWaiting(pending, now, until, token);
      if r.Ok? && r.value.None? {
        r := ClaimIdle(active, now, until, id, token);
        if r.Raised? {
          Rollback(saved);
        }
      }
    }

    method Renew(run: Id, token: Id, until: int) returns (r: Result<bool>)
      modifies this
      ensures Outcome(old(State()), RenewRunLease(old(State()), run, token, until), State(), r)
    {
      if !Holds(State(), run, token, true) {
        return Ok(false);
      }
      runs := runs[run := runs[run].(leaseUntil := Some(until))];
      return Ok(true);
    }

    method Begin(run: Id, token: Id, until: int) returns (r: Result<bool>)
      modifies this
      ensures Outcome(old(State()), BeginRun(old(State()), run, token, until), State(), r)
    {
      if !Holds(State(), run, token, false) {
        return Ok(false);
      }
      runs := runs[run := runs[run].(status := Executing, leaseUntil := Some(until))];
      return Ok(true);
    }

    method Defer(run: Id, token: Id, delay: int, now: int) returns (r: Result<bool>)
      modifies this
      ensures Outcome(old(State()), DeferRun(old(State()), run, token, delay, now), State(), r)
    {
      if !(1 <= delay <= 60) {
        return Raised;
      }
      if !Holds(State(), run, token, true) {
        return Ok(false);
      }
      runs := runs[run := runs[run].(status := RunRetryWait, availableAt := Later(now, delay), leaseUntil := None)];
      return Ok(true);
    }

    /** The insertion loop of a finished run; a taken sequence violates the unique index. */
    method InsertFrames(run: Id, frames: seq<string>, destination: Option<string>, revision: nat, now: int) returns (inserted: bool)
      modifies this`deliveries
      ensures var s := AddFrames(old(State()), run, frames, destination, revision, now);
        inserted == s.Committed? && (inserted ==> State() == s.ledger)
    {
      ghost var before := State();
      assert frames[..0] == [];
      for sequence := 0 to |frames|
        invariant AddFrames(before, run, frames[..sequence], destination, revision, now) == Committed(State(), ())
      {
        assert frames[..sequence + 1][..sequence] == frames[..sequence];
        if Frame(run, sequence) in deliveries {
          AddFramesStuck(before, run, frames, sequence, destination, revision, now);
          return false;
        }
        deliveries := deliveries[Frame(run, sequence) := NewDelivery(frames[sequence], destination, revision, now)];
      }
      assert frames[..|frames|] == frames;
      return true;
    }

    method Complete(run: Id, token: Id, outcome: RunOutcome, frames: seq<string>, now: int) returns (r: Result<bool>)
      requires SchedulesValid(State())
      modifies this
      ensures Outcome(old(State()), CompleteRun(old(State()), run, token, outcome, frames, now), State(), r)
    {
      hide Ends;
      hide WellFormed;
      var saved := State();
      if !Holds(saved, run, token, true) {
        return Ok(false);
      }
      if !ValidFrames(frames) {
        return Raised;
      }
      var row, job := runs[run], jobs[runs[run].job];
      FramesTouchOnlyDeliveries(saved, run, frames, DestinationOf(job.content), row.revision, now);
      var inserted := InsertFrames(run, frames, DestinationOf(job.content), row.revision, now);
      hide AddFrames;
      runs := runs[run := CompletedRun(row, outcome, frames)];
      var counted := Counting(job, outcome);
      var terminal := Ends(job, row.scheduledFor, counted.successes);
      if !inserted || terminal.Raised? {
        Rollback(saved);
        return Raised;
      }
      jobs := jobs[row.job := EndedIf(counted, terminal.value)];
      return Ok(true);
    }

    method Fail(run: Id, token: Id, now: int) returns (r: Result<bool>)
      requires SchedulesValid(State())
      modifies this
      ensures Outcome(old(State()), FailRun(old(State()), run, token, now), State(), r)
    {
      hide LastBefore;
      hide WellFormed;
      hide PowerOfTwo;
      var saved := State();
      if !Holds(saved, run, token, true) {
        return Ok(false);
      }
      var row, job := runs[run], jobs[runs[run].job];
      if row.attempts + 1 < MAX_RUN_ATTEMPTS {
        runs := runs[run := RetriedRun(row, now)];
        return Ok(true);
      }
      FramesTouchOnlyDeliveries(saved, run, [FAILURE_NOTICE], DestinationOf(job.content), job.revision, now);
      var inserted := InsertFrames(run, [FAILURE_NOTICE], DestinationOf(job.content), job.revision, now);
      hide AddFrames;
      runs := runs[run := FailedRun(row, now)];
      var last := LastBefore(job.schedule, row.scheduledFor, job.endsAt);
      if !inserted || last.Raised? {
        Rollback(saved);
        return Raised;
      }
      var finalOccurrence := last.value && (row.trigger == BySchedule || row.trigger == ByCatchup);
      jobs := jobs[row.job := EndedIf(job, job.schedule.Once? || finalOccurrence)];
      return Ok(true);
    }

    // ----- Deliveries -----

    /** `claim_delivery`: suppress stale rows until one can be leased. */
    method ClaimNext(picks: seq<Frame>, now: int, until: int, token: Id) returns (r: Result<Option<Frame>>)
      modifies this
      ensures Outcome(old(State()), ClaimDelivery(old(State()), picks, now, until, token), State(), r)
    {
      var saved := State();
      var i := 0;
      while i < |picks|
        invariant i <= |picks|
        invariant ClaimDelivery(State(), picks[i..], now, until, token) == ClaimDelivery(saved, picks, now, until, token)
      {
        hide Redact;
        hide FrameStale;
        hide Eligible;
        var f := picks[i];
        assert picks[i..][0] == f && picks[i..][1..] == picks[i + 1..];
        if !Eligible(State(), f, now) {
          Rollback(saved);
          return Raised;
        }
        EligibleIsStored(State(), f, now);
        var d := deliveries[f];
        if !FrameStale(State(), f) {
          if d.destination.None? {
            Rollback(saved);
            return Raised;
          }
          deliveries := deliveries[f := d.(status := Leased, attempts := d.attempts + 1, token := Some(token), leaseUntil := Some(until), updatedAt := now)];
          return Ok(Some(f));
        }
        StaleHasRun(State(), f);
        deliveries := deliveries[f := d.(status := Suppressed, updatedAt := now)];
        var _ := RedactTerminalIfReady(runs[f.run].job);
        i := i + 1;
      }
      return Ok(None);
    }

    method Admit(f: Frame, token: Id, now: int) returns (r: Result<bool>)
      modifies this
      ensures Outcome(old(State()), AdmitDelivery(old(State()), f, token, now), State(), r)
    {
      if !HoldsFrame(State(), f, token, Leased) || !Admissible(State(), f) {
        return Ok(false);
      }
      deliveries := deliveries[f := deliveries[f].(status := Sending, updatedAt := now)];
      return Ok(true);
    }

    /** `complete_delivery`, `mark_delivery_unknown` and `suppress_delivery`. */
    method Finish(f: Frame, token: Id, status: DeliveryStatus, now: int, pace: nat) returns (r: Result<bool>)
      modifies this
      ensures Outcome(old(State()), FinishDelivery(old(State()), f, token, status, now, pace), State(), r)
    {
      hide Redact;
      hide PaceFrame;
      if !HoldsFrame(State(), f, token, Sending) {
        return Ok(false);
      }
      var job := runs[f.run].job;
      deliveries := deliveries[f := deliveries[f].(status := status, leaseUntil := None, updatedAt := now)];
      if status != Suppressed {
        PaceNext(Frame(f.run, f.sequence + 1), now, pace);
      }
      var _ := RedactTerminalIfReady(job);
      return Ok(true);
    }

    method FailSend(f: Frame, token: Id, now: int, pace: nat) returns (r: Result<bool>)
      modifies this
      ensures Outcome(old(State()), FailDelivery(old(State()), f, token, now, pace), State(), r)
    {
      hide Redact;
      hide PaceFirst;
      hide PowerOfTwo;
      if !HoldsFrame(State(), f, token, Sending) {
        return Ok(false);
      }
      var d, job := deliveries[f], runs[f.run].job;
      var status := if d.attempts >= MAX_DELIVERY_ATTEMPTS then Exhausted else RetryWait;
      var backoff := Later(now, PowerOfTwo(if d.attempts > 0 then d.attempts - 1 else 0));
      deliveries := deliveries[f := d.(status := status, availableAt := backoff, leaseUntil := None, updatedAt := now)];
      if status == Exhausted {
        PaceRun(f.run, now, pace);
        var _ := RedactTerminalIfReady(job);
      }
      return Ok(true);
    }

    /** `recover_expired_leases`: release what expired, settle what was on the wire, then pace and erase. */
    method RecoverExpired(expiredRuns: seq<Id>, unknownJobs: seq<Id>, now: int, pace: nat) returns (r: Result<()>)
      modifies this
      ensures Outcome(old(State()), Recover(old(State()), expiredRuns, unknownJobs, now, pace), State(), r)
    {
      var saved := State();
      runs := map r | r in runs :: RecoveredRun(runs[r], now);
      deliveries := map f | f in deliveries :: RecoveredFrame(deliveries[f], now);
      hide RecoverRows;
      ghost var released := State();
      assert released == RecoverRows(saved, now) by { RecoveredRows(saved, now); }
      for i := 0 to |expiredRuns|
        invariant PaceAll(State(), expiredRuns[i..], now, pace) == PaceAll(released, expiredRuns, now, pace)
      {
        hide PaceFirst;
        assert expiredRuns[i..][0] == expiredRuns[i] && expiredRuns[i..][1..] == expiredRuns[i + 1..];
        PaceRun(expiredRuns[i], now, pace);
      }
      assert expiredRuns[|expiredRuns|..] == [];
      hide PaceAll;
      var paced := State();
      if !ListsExpiredSends(saved, expiredRuns, now) || !ListsUnknown(paced, unknownJobs, now) {
        Rollback(saved);
        return Raised;
      }
      for i := 0 to |unknownJobs|
        invariant RedactAll(State(), unknownJobs[i..]) == RedactAll(paced, unknownJobs)
      {
        hide Redact;
        assert unknownJobs[i..][0] == unknownJobs[i] && unknownJobs[i..][1..] == unknownJobs[i + 1..];
        var _ := RedactTerminalIfReady(unknownJobs[i]);
      }
      assert unknownJobs[|unknownJobs|..] == [];
      return Ok(());
    }

    /** `redact_terminal_job`. */
    method Erase(owner: Id, job: Id) returns (erased: bool)
      modifies this
      ensures State() == if job in old(jobs) && old(jobs)[job].owner == owner then Redact(old(State()), job) else old(State())
    {
      if job !in jobs || jobs[job].owner != owner {
        return false;
      }
      erased := RedactTerminalIfReady(job);
    }
  }

  lemma RecoveredRows(l: Ledger, now: int)
    ensures RecoverRows(l, now) == Ledger(l.jobs, map r | r in l.runs :: RecoveredRun(l.runs[r], now), map f | f in l.deliveries :: RecoveredFrame(l.deliveries[f], now))
  {
  }

  lemma OwedKeepsSchedules(l: Ledger, job: Id, now: int)
    requires SchedulesValid(l) && job in l.jobs && WellFormed(l.jobs[job].schedule)
    ensures var o := WhatIsOwed(l, job, now); !o.OwedRaised? ==> SchedulesValid(o.ledger) && job in o.ledger.jobs && WellFormed(o.ledger.jobs[job].schedule)
  {
    OwedCases(l, job, now);
    hide WhatIsOwed;
    hide WellFormed;
  }

  lemma PendingKeepsSchedules(l: Ledger, scan: seq<Id>, now: int, until: int, token: Id)
    requires SchedulesValid(l)
    ensures SchedulesValid(After(l, ClaimPending(l, scan, now, until, token)))
  {
    ClaimPendingQuiet(l, scan, now, until, token);
    var l' := After(l, ClaimPending(l, scan, now, until, token));
    hide ClaimPending;
    hide WellFormed;
    forall j | j in l'.jobs ensures WellFormed(l'.jobs[j].schedule) {
      assert SameJob(l.jobs[j], l'.jobs[j]);
    }
  }

  lemma EligibleIsStored(l: Ledger, f: Frame, now: int)
    requires Eligible(l, f, now)
    ensures f in l.deliveries
  {
  }

  /** A taken sequence makes the whole insertion fail, whatever follows it. */
  lemma {:induction false} AddFramesStuck(l: Ledger, run: Id, frames: seq<string>, at: nat, destination: Option<string>, revision: nat, now: int)
    requires at < |frames| && AddFrames(l, run, frames[..at], destination, revision, now).Committed?
    requires Frame(run, at) in AddFrames(l, run, frames[..at], destination, revision, now).ledger.deliveries
    ensures AddFrames(l, run, frames, destination, revision, now).Aborted?
    decreases |frames|
  {
    var last := |frames| - 1;
    if at < last {
      assert frames[..last][..at] == frames[..at];
      AddFramesStuck(l, run, frames[..last], at, destination, revision, now);
    } else {
      assert frames[..last] == frames[..at];
    }
  }

  lemma {:induction false} FramesTouchOnlyDeliveries(l: Ledger, run: Id, frames: seq<string>, destination: Option<string>, revision: nat, now: int)
    ensures var s := AddFrames(l, run, frames, destination, revision, now); s.Committed? ==> s.ledger.jobs == l.jobs && s.ledger.runs == l.runs
    decreases |frames|
  {
    if frames != [] {
      FramesTouchOnlyDeliveries(l, run, frames[..|frames| - 1], destination, revision, now);
    }
  }
}
