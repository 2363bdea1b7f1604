/** What every reachable state of the cron ledger satisfies, and what every transaction keeps. */
module CronInvariant {
  import opened Wrappers
  import opened CronSchedule
  import opened CronLedger

  predicate RunDone(status: RunStatus) {
    status == Succeeded || status == Failed
  }

  /** Deliveries belong to finished runs and carry the revision of their run. */
  ghost predicate Refs(l: Ledger) {
    && (forall r | r in l.runs :: l.runs[r].job in l.jobs)
    && (forall f | f in l.deliveries :: f.run in l.runs && RunDone(l.runs[f.run].status) && l.deliveries[f].jobRevision == l.runs[f.run].revision)
  }

  /** An unfinished run still passes its fence. */
  ghost predicate LiveRuns(l: Ledger) {
    forall r | r in l.runs && RunOpen(l.runs[r].status) :: l.runs[r].job in l.jobs && Permits(l.jobs[l.runs[r].job], l.runs[r])
  }

  /** An unfinished delivery still passes its fence. */
  ghost predicate LiveFrames(l: Ledger) {
    forall f | f in l.deliveries && FrameOpen(l.deliveries[f].status) :: !FrameStale(l, f) && Admissible(l, f)
  }

  /** Each job has at most one open run. */
  ghost predicate OneBusy(l: Ledger) {
    forall a, b | Busy(l, a) && Busy(l, b) && l.runs[a].job == l.runs[b].job :: a == b
  }

  function SuccessfulRuns(l: Ledger, job: Id): set<Id> {
    set r | r in l.runs && l.runs[r].job == job && l.runs[r].outcome == Some(SucceededOutcome)
  }

  /** `successful_runs` counts the runs that succeeded. */
  ghost predicate Counted(l: Ledger) {
    forall j | j in l.jobs :: l.jobs[j].successes == |SuccessfulRuns(l, j)|
  }

  /** A run has its deliveries exactly from the moment it finished, starting at sequence 0. */
  ghost predicate FramesWhenDone(l: Ledger) {
    && (forall r | r in l.runs && RunDone(l.runs[r].status) :: Frame(r, 0) in l.deliveries)
    && (forall r | r in l.runs && !RunDone(l.runs[r].status) :: l.runs[r].outcome == None)
  }

  ghost predicate Inv(l: Ledger) {
    SchedulesValid(l) && Refs(l) && LiveRuns(l) && LiveFrames(l) && OneBusy(l) && Counted(l) && FramesWhenDone(l)
  }

  // ----- Transactions that start no work -----

  /** A job changes at most by losing its content, once it is terminal. */
  ghost predicate SameJob(a: Job, b: Job) {
    b == a.(content := b.content) && (b.content == a.content || (Terminal(a.status) && b.content.Redacted?))
  }

  ghost predicate RunCalm(a: Run, b: Run) {
    && a.job == b.job && a.trigger == b.trigger && a.revision == b.revision && a.scheduledFor == b.scheduledFor && a.outcome == b.outcome
    && (RunOpen(a.status) || b.status == a.status) && (RunOpen(b.status) ==> RunOpen(a.status)) && (RunDone(b.status) ==> RunDone(a.status))
  }

  ghost predicate FrameCalm(a: Delivery, b: Delivery) {
    && a.jobRevision == b.jobRevision && a.destination == b.destination && (FrameOpen(a.status) || b.status == a.status)
    && (FrameOpen(b.status) ==> b.output == a.output)
  }

  /** No row appears, jobs keep their standing, and runs and deliveries at most move on or finish. */
  ghost predicate Quiet(l: Ledger, l': Ledger) {
    && l'.jobs.Keys == l.jobs.Keys && (forall j | j in l.jobs :: SameJob(l.jobs[j], l'.jobs[j]))
    && l'.runs.Keys == l.runs.Keys && (forall r | r in l.runs :: RunCalm(l.runs[r], l'.runs[r]))
    && l'.deliveries.Keys == l.deliveries.Keys && (forall f | f in l.deliveries :: FrameCalm(l.deliveries[f], l'.deliveries[f]))
  }

  lemma QuietRefl(l: Ledger)
    ensures Quiet(l, l)
  {
  }

  lemma QuietTrans(a: Ledger, b: Ledger, c: Ledger)
    requires Quiet(a, b) && Quiet(b, c)
    ensures Quiet(a, c)
  {
    forall r | r in a.runs ensures RunCalm(a.runs[r], c.runs[r]) {
      assert RunCalm(a.runs[r], b.runs[r]) && RunCalm(b.runs[r], c.runs[r]);
    }
    forall f | f in a.deliveries ensures FrameCalm(a.deliveries[f], c.deliveries[f]) {
      assert FrameCalm(a.deliveries[f], b.deliveries[f]) && FrameCalm(b.deliveries[f], c.deliveries[f]);
    }
    forall j | j in a.jobs ensures SameJob(a.jobs[j], c.jobs[j]) {
      assert SameJob(a.jobs[j], b.jobs[j]) && SameJob(b.jobs[j], c.jobs[j]);
    }
  }

  lemma QuietBusy(l: Ledger, l': Ledger, r: Id)
    requires Quiet(l, l') && Busy(l', r)
    ensures Busy(l, r)
  {
    assert RunCalm(l.runs[r], l'.runs[r]);
    if !RunOpen(l'.runs[r].status) {
      var f :| f in l'.deliveries && f.run == r && FrameOpen(l'.deliveries[f].status);
      assert FrameCalm(l.deliveries[f], l'.deliveries[f]);
    }
  }

  lemma QuietOneBusy(l: Ledger, l': Ledger)
    requires Quiet(l, l') && OneBusy(l)
    ensures OneBusy(l')
  {
    forall a, b | Busy(l', a) && Busy(l', b) && l'.runs[a].job == l'.runs[b].job ensures a == b {
      QuietBusy(l, l', a);
      QuietBusy(l, l', b);
      assert RunCalm(l.runs[a], l'.runs[a]) && RunCalm(l.runs[b], l'.runs[b]);
    }
  }

  lemma QuietLive(l: Ledger, l': Ledger)
    requires Quiet(l, l') && Refs(l) && LiveRuns(l) && LiveFrames(l)
    ensures Refs(l') && LiveRuns(l') && LiveFrames(l')
  {
    forall r | r in l'.runs
      ensures l'.runs[r].job in l'.jobs
      ensures RunOpen(l'.runs[r].status) ==> Permits(l'.jobs[l'.runs[r].job], l'.runs[r])
    {
      assert RunCalm(l.runs[r], l'.runs[r]) && SameJob(l.jobs[l.runs[r].job], l'.jobs[l.runs[r].job]);
    }
    forall f | f in l'.deliveries
      ensures f.run in l'.runs && RunDone(l'.runs[f.run].status) && l'.deliveries[f].jobRevision == l'.runs[f.run].revision
      ensures FrameOpen(l'.deliveries[f].status) ==> !FrameStale(l', f) && Admissible(l', f)
    {
      assert FrameCalm(l.deliveries[f], l'.deliveries[f]) && RunCalm(l.runs[f.run], l'.runs[f.run]);
      var job := l.runs[f.run].job;
      assert SameJob(l.jobs[job], l'.jobs[job]);
    }
  }

  lemma QuietCounts(l: Ledger, l': Ledger)
    requires Quiet(l, l') && Counted(l) && SchedulesValid(l) && FramesWhenDone(l)
    ensures Counted(l') && SchedulesValid(l') && FramesWhenDone(l')
  {
    assert forall r | r in l.runs :: RunCalm(l.runs[r], l'.runs[r]);
    forall j | j in l'.jobs ensures l'.jobs[j].successes == |SuccessfulRuns(l', j)| && WellFormed(l'.jobs[j].schedule) {
      assert SameJob(l.jobs[j], l'.jobs[j]);
      assert SuccessfulRuns(l', j) == SuccessfulRuns(l, j);
    }
  }

  /** A transaction that starts no work keeps the invariant. */
  lemma QuietKeeps(l: Ledger, l': Ledger)
    requires Quiet(l, l') && Inv(l)
    ensures Inv(l')
  {
    QuietLive(l, l');
    QuietOneBusy(l, l');
    QuietCounts(l, l');
  }

  lemma SetRunQuiet(l: Ledger, run: Id, row: Run)
    requires run in l.runs && RunCalm(l.runs[run], row)
    ensures Quiet(l, SetRun(l, run, row))
  {
  }

  lemma SetFrameQuiet(l: Ledger, f: Frame, row: Delivery)
    requires f in l.deliveries && FrameCalm(l.deliveries[f], row)
    ensures Quiet(l, SetFrame(l, f, row))
  {
  }

  lemma RedactQuiet(l: Ledger, job: Id)
    ensures Quiet(l, Redact(l, job))
  {
    assert !HasOpenFrame(l, job) ==> forall f | f in l.deliveries && FrameOfJob(l, f, job) :: !FrameOpen(l.deliveries[f].status);
    hide HasOpenFrame;
  }

  lemma PaceFrameQuiet(l: Ledger, f: Frame, now: int, pace: nat)
    ensures Quiet(l, PaceFrame(l, f, now, pace))
  {
  }

  lemma PaceFirstQuiet(l: Ledger, run: Id, now: int, pace: nat)
    ensures Quiet(l, PaceFirst(l, run, now, pace))
  {
    hide FirstWaiting;
    hide PaceFrame;
    match FirstWaiting(l, run, 0, 3)
    case None =>
    case Some(f) => PaceFrameQuiet(l, f, now, pace);
  }

  lemma {:induction false} PaceAllQuiet(l: Ledger, runs: seq<Id>, now: int, pace: nat)
    ensures Quiet(l, PaceAll(l, runs, now, pace))
    decreases |runs|
  {
    hide PaceFirst;
    if runs != [] {
      var l1 := PaceFirst(l, runs[0], now, pace);
      PaceFirstQuiet(l, runs[0], now, pace);
      PaceAllQuiet(l1, runs[1..], now, pace);
      QuietTrans(l, l1, PaceAll(l1, runs[1..], now, pace));
    }
  }

  lemma {:induction false} RedactAllQuiet(l: Ledger, jobs: seq<Id>)
    ensures Quiet(l, RedactAll(l, jobs))
    decreases |jobs|
  {
    hide Redact;
    if jobs != [] {
      var l1 := Redact(l, jobs[0]);
      RedactQuiet(l, jobs[0]);
      RedactAllQuiet(l1, jobs[1..]);
      QuietTrans(l, l1, RedactAll(l1, jobs[1..]));
    }
  }

  lemma RecoverRowsQuiet(l: Ledger, now: int)
    ensures Quiet(l, RecoverRows(l, now))
  {
  }

  lemma RecoverQuiet(l: Ledger, runs: seq<Id>, jobs: seq<Id>, now: int, pace: nat)
    ensures Quiet(l, After(l, Recover(l, runs, jobs, now, pace)))
  {
    hide RecoverRows;
    hide PaceAll;
    hide RedactAll;
    hide ListsExpiredSends;
    hide ListsUnknown;
    QuietRefl(l);
    hide Quiet;
    var l0 := RecoverRows(l, now);
    var l1 := PaceAll(l0, runs, now, pace);
    RecoverRowsQuiet(l, now);
    PaceAllQuiet(l0, runs, now, pace);
    RedactAllQuiet(l1, jobs);
    QuietTrans(l, l0, l1);
    QuietTrans(l, l1, RedactAll(l1, jobs));
  }

  lemma {:induction false} ClaimDeliveryQuiet(l: Ledger, picks: seq<Frame>, now: int, until: int, token: Id)
    ensures Quiet(l, After(l, ClaimDelivery(l, picks, now, until, token)))
    decreases |picks|
  {
    hide Redact;
    hide FrameStale;
    if picks != [] && Eligible(l, picks[0], now) {
      var f, d := picks[0], l.deliveries[picks[0]];
      if FrameStale(l, f) {
        StaleHasRun(l, f);
        var l1 := SetFrame(l, f, d.(status := Suppressed, updatedAt := now));
        var l2 := Redact(l1, l.runs[f.run].job);
        SetFrameQuiet(l, f, d.(status := Suppressed, updatedAt := now));
        RedactQuiet(l1, l.runs[f.run].job);
        ClaimDeliveryQuiet(l2, picks[1..], now, until, token);
        QuietTrans(l, l1, l2);
        if ClaimDelivery(l2, picks[1..], now, until, token).Committed? {
          QuietTrans(l, l2, After(l2, ClaimDelivery(l2, picks[1..], now, until, token)));
        }
      }
    }
  }

  lemma StaleHasRun(l: Ledger, f: Frame)
    requires FrameStale(l, f)
    ensures f.run in l.runs
  {
  }

  lemma FinishDeliveryQuiet(l: Ledger, f: Frame, token: Id, status: DeliveryStatus, now: int, pace: nat)
    ensures Quiet(l, After(l, FinishDelivery(l, f, token, status, now, pace)))
  {
    hide Redact;
    hide PaceFrame;
    if !HoldsFrame(l, f, token, Sending) {
      QuietRefl(l);
    }
    hide Quiet;
    if HoldsFrame(l, f, token, Sending) {
      var row := l.deliveries[f].(status := status, leaseUntil := None, updatedAt := now);
      var l1 := SetFrame(l, f, row);
      var l2 := if status == Suppressed then l1 else PaceFrame(l1, Frame(f.run, f.sequence + 1), now, pace);
      SetFrameQuiet(l, f, row);
      PaceFrameQuiet(l1, Frame(f.run, f.sequence + 1), now, pace);
      QuietRefl(l1);
      RedactQuiet(l2, l.runs[f.run].job);
      QuietTrans(l, l1, l2);
      QuietTrans(l, l2, Redact(l2, l.runs[f.run].job));
    }
  }

  lemma FailDeliveryQuiet(l: Ledger, f: Frame, token: Id, now: int, pace: nat)
    ensures Quiet(l, After(l, FailDelivery(l, f, token, now, pace)))
  {
    hide Redact;
    hide PaceFirst;
    hide PowerOfTwo;
    QuietRefl(l);
    if HoldsFrame(l, f, token, Sending) {
      var d := l.deliveries[f];
      var backoff := Later(now, PowerOfTwo(if d.attempts > 0 then d.attempts - 1 else 0));
      var retry := d.(status := RetryWait, availableAt := backoff, leaseUntil := None, updatedAt := now);
      var row := d.(status := Exhausted, availableAt := backoff, leaseUntil := None, updatedAt := now);
      assert FrameCalm(d, retry) && FrameCalm(d, row);
      hide Quiet;
      SetFrameQuiet(l, f, retry);
      SetFrameQuiet(l, f, row);
      var l1 := SetFrame(l, f, row);
      var l2 := PaceFirst(l1, f.run, now, pace);
      PaceFirstQuiet(l1, f.run, now, pace);
      RedactQuiet(l2, l.runs[f.run].job);
      QuietTrans(l, l1, l2);
      QuietTrans(l, l2, Redact(l2, l.runs[f.run].job));
    }
  }

  lemma {:induction false} ClaimPendingQuiet(l: Ledger, scan: seq<Id>, now: int, until: int, token: Id)
    requires SchedulesValid(l)
    ensures Quiet(l, After(l, ClaimPending(l, scan, now, until, token)))
    decreases |scan|
  {
    hide WillEnd;
    if scan != [] && Claimable(l, scan[0], now) && l.runs[scan[0]].job in l.jobs {
      var run := l.runs[scan[0]];
      if !Permits(l.jobs[run.job], run) {
        var l1 := SetRun(l, scan[0], run.(status := Invalidated, leaseUntil := None));
        SetRunQuiet(l, scan[0], run.(status := Invalidated, leaseUntil := None));
        ClaimPendingQuiet(l1, scan[1..], now, until, token);
        if ClaimPending(l1, scan[1..], now, until, token).Committed? {
          QuietTrans(l, l1, After(l1, ClaimPending(l1, scan[1..], now, until, token)));
        }
      }
    }
  }
}
