/** What each store call on jobs accepts and the rows it leaves: an edit withdraws all unfinished work of the job, and
    cancelling erases it at once. */
module CronJobEffects {
  import opened Wrappers
  import opened CronSchedule
  import opened CronLedger
  import opened CronInvariant
  import opened CronTransitions
  import opened CronHistory
  import opened CronRedaction
  import opened CronEffects
  import opened CronSendEffects

  // ----- Rows -----

  /** A run of an edited job: an unfinished one is invalidated. */
  function WithdrawnRun(r: Run, erased: bool): Run {
    var r1 := if r.status in [RunPending, RunLeased, Executing, RunRetryWait] then r.(status := Invalidated, leaseUntil := None) else r;
    if erased then r1.(output := None) else r1
  }

  /** A delivery of an edited job: an unfinished one is suppressed. */
  function WithdrawnDelivery(d: Delivery, erased: bool, now: int): Delivery {
    var d1 := if d.status in [Pending, Leased, RetryWait] then d.(status := Suppressed, leaseUntil := None, updatedAt := now) else d;
    if erased then d1.(output := None) else d1
  }

  /** All unfinished work of the job is withdrawn, its texts erased or not; the work of other jobs is as it was. */
  ghost predicate Withdraws(l: Ledger, l': Ledger, job: Id, erased: bool, now: int) {
    WithdrawsRuns(l, l', job, erased) && WithdrawsDeliveries(l, l', job, erased, now)
  }

  /** The owner may change this revision of the job, and no delivery of it is being sent. */
  predicate MayChange(l: Ledger, owner: Id, id: Id, expected: nat) {
    && id in l.jobs && l.jobs[id].owner == owner && l.jobs[id].revision == expected
    && forall f | f in l.deliveries && f.run in l.runs && l.runs[f.run].job == id :: !l.deliveries[f].status.Sending?
  }

  lemma MayChangeIsEditable(l: Ledger, owner: Id, id: Id, expected: nat)
    ensures Editable(l, owner, id, expected) <==> MayChange(l, owner, id, expected)
  {
    if id in l.jobs {
      forall f | f in l.deliveries && f.run in l.runs && l.runs[f.run].job == id && l.deliveries[f].status.Sending? ensures HasSending(l, id) {
        assert FrameOfJob(l, f, id);
      }
    }
  }

  ghost predicate WithdrawsRuns(l: Ledger, l': Ledger, job: Id, erased: bool) {
    && l'.runs.Keys == l.runs.Keys
    && forall r | r in l.runs :: l'.runs[r] == if l.runs[r].job == job then WithdrawnRun(l.runs[r], erased) else l.runs[r]
  }

  ghost predicate WithdrawsDeliveries(l: Ledger, l': Ledger, job: Id, erased: bool, now: int) {
    && l'.deliveries.Keys == l.deliveries.Keys
    && forall f | f in l.deliveries :: l'.deliveries[f] ==
         if f.run in l.runs && l.runs[f.run].job == job then WithdrawnDelivery(l.deliveries[f], erased, now) else l.deliveries[f]
  }

  ghost predicate WorkIsCurrent(l: Ledger, id: Id) {
    && id in l.jobs
    && (forall r | r in l.runs && l.runs[r].job == id && RunOpen(l.runs[r].status) :: l.runs[r].revision == l.jobs[id].revision)
    && (forall f | f in l.deliveries && f.run in l.runs && l.runs[f.run].job == id && FrameOpen(l.deliveries[f].status) :: l.runs[f.run].revision == l.jobs[id].revision)
  }

  lemma SoundWorkIsCurrent(l: Ledger, id: Id)
    requires Inv(l) && id in l.jobs
    ensures WorkIsCurrent(l, id)
  {
    assert forall f | f in l.deliveries && FrameOpen(l.deliveries[f].status) :: !FrameStale(l, f);
  }

  lemma BumpWithdrawsRuns(l: Ledger, id: Id, row: Job, now: int)
    requires WorkIsCurrent(l, id) && row.revision > l.jobs[id].revision
    ensures WithdrawsRuns(l, InvalidateStale(SetJob(l, id, row), id, now), id, false)
  {
    hide StaleDelivery;
    assert forall status: RunStatus :: RunOpen(status) <==> status in [RunPending, RunLeased, Executing, RunRetryWait];
    forall r | r in l.runs && l.runs[r].job == id
      ensures InvalidatedRun(l.runs[r], id, row.revision) == WithdrawnRun(l.runs[r], false)
    {
    }
    hide WithdrawnRun;
  }

  lemma BumpWithdrawsDeliveries(l: Ledger, id: Id, row: Job, now: int)
    requires WorkIsCurrent(l, id) && row.revision > l.jobs[id].revision && !HasSending(l, id)
    ensures WithdrawsDeliveries(l, InvalidateStale(SetJob(l, id, row), id, now), id, false, now)
  {
    hide InvalidatedRun;
    var l1 := SetJob(l, id, row);
    forall f | f in l.deliveries
      ensures StaleDelivery(l1, f, id, row.revision, now) ==
        if f.run in l.runs && l.runs[f.run].job == id then WithdrawnDelivery(l.deliveries[f], false, now) else l.deliveries[f]
    {
      if f.run in l.runs && l.runs[f.run].job == id {
        assert FrameOfJob(l, f, id);
      }
    }
    hide StaleDelivery;
    hide WithdrawnDelivery;
  }

  /** In a sound ledger all unfinished work of a job carries its current revision, so a new revision withdraws it all. */
  lemma BumpWithdraws(l: Ledger, id: Id, row: Job, now: int)
    requires Inv(l) && id in l.jobs && row.revision > l.jobs[id].revision && !HasSending(l, id)
    ensures var l' := InvalidateStale(SetJob(l, id, row), id, now); l'.jobs == l.jobs[id := row] && Withdraws(l, l', id, false, now)
  {
    SoundWorkIsCurrent(l, id);
    hide Inv;
    BumpWithdrawsRuns(l, id, row, now);
    BumpWithdrawsDeliveries(l, id, row, now);
    hide WorkIsCurrent;
    hide HasSending;
    hide WithdrawnRun;
    hide WithdrawnDelivery;
    hide InvalidatedRun;
    hide StaleDelivery;
  }

  lemma NothingOpen(l: Ledger, l1: Ledger, id: Id, now: int)
    requires Withdraws(l, l1, id, false, now) && !HasSending(l, id)
    ensures forall f | f in l1.deliveries && f.run in l1.runs && l1.runs[f.run].job == id :: l1.deliveries[f].status !in [Pending, Leased, Sending, RetryWait]
  {
    forall f | f in l1.deliveries && f.run in l1.runs && l1.runs[f.run].job == id
      ensures l1.deliveries[f].status !in [Pending, Leased, Sending, RetryWait]
    {
      assert l.runs[f.run].job == id;
      assert FrameOfJob(l, f, id);
      assert l1.deliveries[f] == WithdrawnDelivery(l.deliveries[f], false, now);
    }
  }

  /** Once its work is withdrawn a cancelled job is erased. */
  lemma WithdrawnErases(l: Ledger, l1: Ledger, id: Id, now: int)
    requires Withdraws(l, l1, id, false, now) && !HasSending(l, id)
    requires id in l1.jobs && l1.jobs[id].status.Cancelled?
    ensures var l' := Redact(l1, id); Withdraws(l, l', id, true, now) && l'.jobs == l1.jobs[id := l1.jobs[id].(content := Redacted)]
  {
    NothingOpen(l, l1, id, now);
    ErasureExactly(l1, id);
    hide Redact;
    hide HasSending;
    var l' := Redact(l1, id);
    forall r | r in l.runs ensures l'.runs[r] == if l.runs[r].job == id then WithdrawnRun(l.runs[r], true) else l.runs[r] {
      WithdrawnInTwo(l.runs[r]);
    }
    hide WithdrawnRun;
    forall f | f in l.deliveries
      ensures l'.deliveries[f] == if f.run in l.runs && l.runs[f.run].job == id then WithdrawnDelivery(l.deliveries[f], true, now) else l.deliveries[f]
    {
      assert f.run in l.runs ==> l1.runs[f.run].job == l.runs[f.run].job;
    }
    hide WithdrawnDelivery;
  }

  lemma WithdrawnInTwo(r: Run)
    ensures WithdrawnRun(r, true) == WithdrawnRun(r, false).(output := None) && WithdrawnRun(r, false).job == r.job
  {
  }

  // ----- Calls -----

  predicate Complete(c: Content) {
    c.Content? && !OnlySpace(c.destination) && !OnlySpace(c.text) && forall i | 0 <= i < |c.constraints| :: !OnlySpace(c.constraints[i])
  }

  predicate Acceptable(j: Job) {
    && Complete(j.content) && j.revision >= 1 && (j.maxSuccesses.Some? ==> j.maxSuccesses.value >= 1)
    && (j.schedule.Interval? ==> j.schedule.every > 0) && (j.schedule.Cron? ==> ValidFields(j.schedule.fields))
  }

  lemma AcceptableIsValid(j: Job)
    ensures ValidJob(j) <==> Acceptable(j)
  {
    if j.content.Content? {
      BlankMeans(j.content.destination);
      BlankMeans(j.content.text);
      forall i | 0 <= i < |j.content.constraints| ensures Blank(j.content.constraints[i]) <==> OnlySpace(j.content.constraints[i]) {
        BlankMeans(j.content.constraints[i]);
      }
    }
    hide Blank;
    hide OnlySpace;
    hide ValidFields;
  }

  /** Creating a job: an unacceptable one raises, a known identifier changes nothing, and a new job starts without
      successes, occurrences or pauses, counting from its start or else from now. */
  lemma CreationExactly(l: Ledger, id: Id, job: Job, now: int)
    ensures Create(l, id, job, now) ==
      if !Acceptable(job) then Aborted
      else if id in l.jobs then Committed(l, ())
      else Committed(Ledger(l.jobs[id := Job(job.owner, job.content, job.schedule, job.endsAt, job.maxSuccesses, job.status, job.revision, 0, None, None,
        if job.schedule.Interval? && job.schedule.startsAt.Some? then job.schedule.startsAt.value else now)], l.runs, l.deliveries), ())
  {
    AcceptableIsValid(job);
    hide ValidJob;
    hide Acceptable;
  }

  /** Editing a job that has not ended: it is replaced under a new revision, counts from now, and all of its unfinished
      work is withdrawn. */
  lemma UpdateExactly(l: Ledger, owner: Id, id: Id, edit: Job, expected: nat, now: int)
    requires Inv(l)
    ensures var s := Update(l, owner, id, edit, expected, now);
      if !Acceptable(edit) then s.Aborted?
      else if !MayChange(l, owner, id, expected) || l.jobs[id].status.Ended? || l.jobs[id].status.Cancelled? then s == Committed(l, false)
      else
        && s.Committed? && s.value && Withdraws(l, s.ledger, id, false, now)
        && s.ledger.jobs == l.jobs[id := Job(owner, edit.content, edit.schedule, edit.endsAt, edit.maxSuccesses, l.jobs[id].status, expected + 1, l.jobs[id].successes, None, None, now)]
  {
    AcceptableIsValid(edit);
    MayChangeIsEditable(l, owner, id, expected);
    if MayChange(l, owner, id, expected) {
      BumpWithdraws(l, id, EditedJob(l.jobs[id], edit, now), now);
    }
    hide Inv;
    hide ValidJob;
    hide Acceptable;
    hide MayChange;
    hide InvalidateStale;
    hide Withdraws;
    hide HasSending;
  }

  /** Pausing, resuming and cancelling a job that has not ended: the pause is remembered until the job next owes nothing
      or catches up, resuming keeps it, and cancelling erases the job. */
  lemma ChangeExactly(l: Ledger, owner: Id, id: Id, expected: nat, status: JobStatus, now: int)
    requires Inv(l)
    ensures var s := ChangeStatus(l, owner, id, expected, status, now);
      if !MayChange(l, owner, id, expected) || l.jobs[id].status.Ended? || l.jobs[id].status.Cancelled? then s == Committed(l, false)
      else
        var j := l.jobs[id].(status := status, revision := expected + 1, pausedAt := if status.Paused? then Some(now) else l.jobs[id].pausedAt);
        && s.Committed? && s.value && Withdraws(l, s.ledger, id, status.Cancelled?, now)
        && s.ledger.jobs == l.jobs[id := if status.Cancelled? then j.(content := Redacted) else j]
  {
    hide WithdrawsRuns;
    hide WithdrawsDeliveries;
    MayChangeIsEditable(l, owner, id, expected);
    if MayChange(l, owner, id, expected) {
      var row := ChangedJob(l.jobs[id], status, now);
      BumpWithdraws(l, id, row, now);
      if status.Cancelled? {
        WithdrawnErases(l, InvalidateStale(SetJob(l, id, row), id, now), id, now);
      }
    }
    hide Inv;
    hide MayChange;
    hide InvalidateStale;
    hide Redact;
    hide Withdraws;
    hide HasSending;
  }

  /** Deleting cancels a job in any state, withdraws its work and erases it; the row stays. */
  lemma DeletionExactly(l: Ledger, owner: Id, id: Id, expected: nat, now: int)
    requires Inv(l)
    ensures var s := Delete(l, owner, id, expected, now);
      if !MayChange(l, owner, id, expected) then s == Committed(l, false)
      else
        && s.Committed? && s.value && Withdraws(l, s.ledger, id, true, now)
        && s.ledger.jobs == l.jobs[id := l.jobs[id].(status := Cancelled, revision := expected + 1, content := Redacted)]
  {
    MayChangeIsEditable(l, owner, id, expected);
    if MayChange(l, owner, id, expected) {
      var row := DeletedJob(l.jobs[id]);
      BumpWithdraws(l, id, row, now);
      WithdrawnErases(l, InvalidateStale(SetJob(l, id, row), id, now), id, now);
    }
    hide Inv;
    hide MayChange;
    hide InvalidateStale;
    hide Redact;
    hide Withdraws;
    hide HasSending;
  }

  /** Asking for a run by hand: the owner's active job of that revision, with no run or delivery unfinished, gets one
      waiting run for this very instant, unless one was asked for at the same instant before. */
  lemma ManualRunExactly(l: Ledger, owner: Id, job: Id, expected: Option<nat>, id: Id, now: int)
    ensures var s := RequestManualRun(l, owner, job, expected, id, now);
      if job !in l.jobs || l.jobs[job].owner != owner || !l.jobs[job].status.Active? || (expected.Some? && l.jobs[job].revision != expected.value) || ActiveRun(l, job)
      then s == Committed(l, false)
      else if id in l.runs || exists r | r in l.runs :: l.runs[r].job == job && l.runs[r].scheduledFor == now && l.runs[r].trigger.Manually? then s.Aborted?
      else s == Committed(Ledger(l.jobs, l.runs[id := Run(job, now, Manually, l.jobs[job].revision, RunPending, 0, now, None, None, None, None)], l.deliveries), true)
  {
    hide ActiveRun;
  }
}
