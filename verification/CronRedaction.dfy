/** When the content of a job is erased: exactly when the job is terminal and nothing of it is left open. */
module CronRedaction {
  import opened Wrappers
  import opened CronSchedule
  import opened CronLedger
  import opened CronInvariant
  import opened CronTransitions
  import opened CronHistory
  import opened CronAccounting

  predicate Open(l: Ledger, job: Id) {
    HasOpenRun(l, job) || HasOpenFrame(l, job)
  }

  ghost predicate ExactFor(l: Ledger, job: Id) {
    job in l.jobs ==> (l.jobs[job].content.Redacted? <==> Terminal(l.jobs[job].status) && !Open(l, job))
  }

  /** The content of a job is erased exactly when the job is terminal and has no open work left. */
  ghost predicate Exact(l: Ledger) {
    forall j :: ExactFor(l, j)
  }

  lemma OpenIsActive(l: Ledger, job: Id)
    requires Refs(l)
    ensures Open(l, job) <==> ActiveRun(l, job)
  {
    if HasOpenFrame(l, job) {
      var f :| f in l.deliveries && FrameOfJob(l, f, job) && FrameOpen(l.deliveries[f].status);
      assert Busy(l, f.run);
    }
    if ActiveRun(l, job) {
      var r :| r in l.runs && l.runs[r].job == job && Busy(l, r);
      if !RunOpen(l.runs[r].status) {
        var f :| f in l.deliveries && f.run == r && FrameOpen(l.deliveries[f].status);
        assert FrameOfJob(l, f, job);
      }
    }
  }

  // ----- Changes that open or close nothing -----

  ghost predicate SameOpen(l: Ledger, l': Ledger) {
    && l'.runs.Keys == l.runs.Keys
    && (forall r | r in l.runs :: l'.runs[r].job == l.runs[r].job && RunOpen(l'.runs[r].status) == RunOpen(l.runs[r].status))
    && l'.deliveries.Keys == l.deliveries.Keys
    && (forall f | f in l.deliveries :: FrameOpen(l'.deliveries[f].status) == FrameOpen(l.deliveries[f].status))
  }

  ghost predicate SameStanding(l: Ledger, l': Ledger) {
    && l'.jobs.Keys == l.jobs.Keys
    && (forall j | j in l.jobs :: l'.jobs[j].status == l.jobs[j].status && l'.jobs[j].content == l.jobs[j].content)
  }

  lemma SameOpenRuns(l: Ledger, l': Ledger)
    requires l'.runs.Keys == l.runs.Keys
    requires forall r | r in l.runs :: l'.runs[r].job == l.runs[r].job && RunOpen(l'.runs[r].status) == RunOpen(l.runs[r].status)
    ensures forall j :: HasOpenRun(l', j) == HasOpenRun(l, j)
  {
    hide RunOpen;
    forall j ensures HasOpenRun(l', j) == HasOpenRun(l, j) {}
  }

  lemma SameOpenWork(l: Ledger, l': Ledger)
    requires SameOpen(l, l')
    ensures forall j :: HasOpenRun(l', j) == HasOpenRun(l, j)
    ensures forall j :: HasOpenFrame(l', j) == HasOpenFrame(l, j)
  {
    SameOpenRuns(l, l');
    forall j ensures HasOpenFrame(l', j) == HasOpenFrame(l, j) {
      forall f | f in l.deliveries ensures FrameOfJob(l', f, j) == FrameOfJob(l, f, j) {}
    }
  }

  lemma NothingOpened(l: Ledger, l': Ledger)
    requires SameOpen(l, l') && SameStanding(l, l')
    ensures Exact(l) <==> Exact(l')
  {
    SameOpenWork(l, l');
    hide HasOpenRun;
    hide HasOpenFrame;
    forall j ensures ExactFor(l, j) <==> ExactFor(l', j) {}
  }

  lemma SameOpenTrans(a: Ledger, b: Ledger, c: Ledger)
    requires SameOpen(a, b) && SameOpen(b, c)
    ensures SameOpen(a, c)
  {
  }

  lemma SetFrameSame(l: Ledger, f: Frame, row: Delivery)
    requires f in l.deliveries && FrameOpen(row.status) == FrameOpen(l.deliveries[f].status)
    ensures SameOpen(l, SetFrame(l, f, row)) && SetFrame(l, f, row).jobs == l.jobs
  {
  }

  lemma SetRunSame(l: Ledger, run: Id, row: Run)
    requires run in l.runs && row.job == l.runs[run].job && RunOpen(row.status) == RunOpen(l.runs[run].status)
    ensures SameOpen(l, SetRun(l, run, row)) && SetRun(l, run, row).jobs == l.jobs
  {
  }

  lemma PaceFrameSame(l: Ledger, f: Frame, now: int, pace: nat)
    ensures var l' := PaceFrame(l, f, now, pace); SameOpen(l, l') && l'.jobs == l.jobs
  {
  }

  lemma PaceFirstSame(l: Ledger, run: Id, now: int, pace: nat)
    ensures var l' := PaceFirst(l, run, now, pace); SameOpen(l, l') && l'.jobs == l.jobs
  {
    match FirstWaiting(l, run, 0, 3)
    case None =>
    case Some(f) => PaceFrameSame(l, f, now, pace);
    hide PaceFrame;
  }

  lemma RedactSame(l: Ledger, job: Id)
    ensures var l' := Redact(l, job);
      && SameOpen(l, l') && l'.jobs.Keys == l.jobs.Keys
      && (forall j | j in l.jobs && j != job :: l'.jobs[j] == l.jobs[j])
      && (job in l.jobs ==> l'.jobs[job] == if Terminal(l.jobs[job].status) && !HasOpenFrame(l, job) then l.jobs[job].(content := Redacted) else l.jobs[job])
  {
    hide HasOpenFrame;
  }

  // ----- Closing a delivery -----

  lemma AfterClosing(l: Ledger, f: Frame, row: Delivery, l2: Ledger, job: Id)
    requires Refs(l) && OneBusy(l) && f in l.deliveries && FrameOpen(l.deliveries[f].status) && !FrameOpen(row.status)
    requires job == l.runs[f.run].job && SameOpen(SetFrame(l, f, row), l2)
    ensures Open(l, job) && !HasOpenRun(l2, job) && (forall j | j != job :: Open(l2, j) == Open(l, j))
  {
    assert FrameOfJob(l, f, job);
    assert Busy(l, f.run);
    forall r | r in l.runs && l.runs[r].job == job ensures !RunOpen(l.runs[r].status) {
      assert RunOpen(l.runs[r].status) ==> Busy(l, r);
    }
    var l1 := SetFrame(l, f, row);
    SameOpenWork(l1, l2);
    forall j | j != job ensures HasOpenFrame(l1, j) == HasOpenFrame(l, j) {
      forall g | g in l.deliveries ensures FrameOfJob(l1, g, j) == FrameOfJob(l, g, j) {}
    }
  }

  lemma ClosingThenRedacting(l: Ledger, f: Frame, row: Delivery, l2: Ledger, job: Id)
    requires Refs(l) && OneBusy(l) && Exact(l) && f in l.deliveries && FrameOpen(l.deliveries[f].status) && !FrameOpen(row.status)
    requires job == l.runs[f.run].job && SameOpen(SetFrame(l, f, row), l2) && l2.jobs == l.jobs
    ensures Exact(Redact(l2, job))
  {
    AfterClosing(l, f, row, l2, job);
    RedactSame(l2, job);
    var l3 := Redact(l2, job);
    hide Redact;
    SameOpenWork(l2, l3);
    hide HasOpenFrame;
    hide HasOpenRun;
    hide SameOpen;
    hide Refs;
    hide OneBusy;
    hide SetFrame;
    forall j ensures ExactFor(l3, j) {
      assert ExactFor(l, j);
    }
  }

  lemma FinishDeliveryExact(l: Ledger, f: Frame, token: Id, status: DeliveryStatus, now: int, pace: nat)
    requires Inv(l) && Exact(l) && !FrameOpen(status)
    ensures Exact(After(l, FinishDelivery(l, f, token, status, now, pace)))
  {
    hide Redact;
    hide PaceFrame;
    hide Exact;
    hide SchedulesValid;
    hide Counted;
    hide LiveRuns;
    hide LiveFrames;
    if HoldsFrame(l, f, token, Sending) {
      var row := l.deliveries[f].(status := status, leaseUntil := None, updatedAt := now);
      var l1 := SetFrame(l, f, row);
      var l2 := PaceFrame(l1, Frame(f.run, f.sequence + 1), now, pace);
      PaceFrameSame(l1, Frame(f.run, f.sequence + 1), now, pace);
      assert SameOpen(l1, l1);
      hide SameOpen;
      ClosingThenRedacting(l, f, row, l1, l.runs[f.run].job);
      ClosingThenRedacting(l, f, row, l2, l.runs[f.run].job);
    }
  }

  lemma FailDeliveryExact(l: Ledger, f: Frame, token: Id, now: int, pace: nat)
    requires Inv(l) && Exact(l)
    ensures Exact(After(l, FailDelivery(l, f, token, now, pace)))
  {
    hide Redact;
    hide PaceFirst;
    hide Exact;
    hide PowerOfTwo;
    hide SchedulesValid;
    hide Counted;
    hide LiveRuns;
    hide LiveFrames;
    if HoldsFrame(l, f, token, Sending) {
      var d := l.deliveries[f];
      var backoff := Later(now, PowerOfTwo(if d.attempts > 0 then d.attempts - 1 else 0));
      if d.attempts >= MAX_DELIVERY_ATTEMPTS {
        var row := d.(status := Exhausted, availableAt := backoff, leaseUntil := None, updatedAt := now);
        PaceFirstSame(SetFrame(l, f, row), f.run, now, pace);
        hide SameOpen;
        ClosingThenRedacting(l, f, row, PaceFirst(SetFrame(l, f, row), f.run, now, pace), l.runs[f.run].job);
      } else {
        var row := d.(status := RetryWait, availableAt := backoff, leaseUntil := None, updatedAt := now);
        SetFrameSame(l, f, row);
        NothingOpened(l, SetFrame(l, f, row));
      }
    }
  }

  // ----- Recovery -----

  /** A job that has ended, still has its lifecycle run open, and whose content this call may erase too early. */
  predicate ErasableEarly(l: Ledger, job: Id) {
    job in l.jobs && Terminal(l.jobs[job].status) && HasOpenRun(l, job)
  }

  predicate OldUnknown(l: Ledger, job: Id, now: int) {
    exists f | f in l.deliveries :: FrameOfJob(l, f, job) && l.deliveries[f].status == Unknown && l.deliveries[f].updatedAt == now
  }

  /** Pacing leaves every row that is not waiting alone. */
  ghost predicate Paced(l: Ledger, l': Ledger) {
    && l'.jobs == l.jobs && l'.runs == l.runs && SameOpen(l, l')
    && (forall f | f in l.deliveries && !Waiting(l.deliveries[f].status) :: l'.deliveries[f] == l.deliveries[f])
    && (forall f | f in l.deliveries :: l'.deliveries[f].status == l.deliveries[f].status)
  }

  lemma PaceFramePaced(l: Ledger, f: Frame, now: int, pace: nat)
    ensures Paced(l, PaceFrame(l, f, now, pace))
  {
  }

  lemma {:induction false} PaceAllPaced(l: Ledger, runs: seq<Id>, now: int, pace: nat)
    ensures Paced(l, PaceAll(l, runs, now, pace))
    decreases |runs|
  {
    hide FirstWaiting;
    hide PaceFrame;
    if runs != [] {
      var l1 := PaceFirst(l, runs[0], now, pace);
      match FirstWaiting(l, runs[0], 0, 3) {
        case None =>
        case Some(f) => PaceFramePaced(l, f, now, pace);
      }
      assert Paced(l, l1);
      hide PaceFirst;
      PaceAllPaced(l1, runs[1..], now, pace);
    }
  }

  /** What a list of redactions does to the jobs: each listed terminal job without an open delivery is erased. */
  ghost predicate RedactedThose(l: Ledger, l': Ledger, jobs: seq<Id>) {
    && SameOpen(l, l') && l'.jobs.Keys == l.jobs.Keys
    && (forall j | j in l.jobs :: RedactedIf(l.jobs[j], l'.jobs[j], j in jobs && Terminal(l.jobs[j].status) && !HasOpenFrame(l, j)))
  }

  ghost predicate RedactedIf(a: Job, b: Job, erased: bool) {
    b == if erased then a.(content := Redacted) else a
  }

  lemma {:induction false} RedactAllEffect(l: Ledger, jobs: seq<Id>)
    ensures RedactedThose(l, RedactAll(l, jobs), jobs)
    decreases |jobs|
  {
    if jobs != [] {
      var l1 := Redact(l, jobs[0]);
      var l2 := RedactAll(l1, jobs[1..]);
      RedactSame(l, jobs[0]);
      hide Redact;
      RedactAllEffect(l1, jobs[1..]);
      SameOpenTrans(l, l1, l2);
      SameOpenWork(l, l1);
      hide SameOpen;
      hide HasOpenFrame;
      hide Terminal;
      forall j | j in l.jobs ensures RedactedIf(l.jobs[j], l2.jobs[j], j in jobs && Terminal(l.jobs[j].status) && !HasOpenFrame(l, j)) {
        assert j in jobs <==> j == jobs[0] || j in jobs[1..];
        assert RedactedIf(l1.jobs[j], l2.jobs[j], j in jobs[1..] && Terminal(l1.jobs[j].status) && !HasOpenFrame(l1, j));
        assert Terminal(l1.jobs[j].status) == Terminal(l.jobs[j].status);
      }
    }
  }

  lemma RecoverRowsRuns(l: Ledger, now: int)
    ensures var l' := RecoverRows(l, now); l'.jobs == l.jobs && forall j :: HasOpenRun(l', j) == HasOpenRun(l, j)
  {
    hide Expired;
    SameOpenRuns(l, RecoverRows(l, now));
    hide HasOpenRun;
  }

  lemma RecoverRowsFrames(l: Ledger, now: int, job: Id)
    ensures var l' := RecoverRows(l, now);
      && (HasOpenFrame(l', job) ==> HasOpenFrame(l, job))
      && (HasOpenFrame(l, job) && !HasOpenFrame(l', job) ==> UnknownNow(l', job, now))
      && (OldUnknown(l, job, now) ==> UnknownNow(l', job, now))
  {
    hide Expired;
    var l' := RecoverRows(l, now);
    forall f | FrameOfJob(l, f, job) ensures FrameOfJob(l', f, job) {}
    forall f | FrameOfJob(l', f, job) ensures FrameOfJob(l, f, job) {}
    if HasOpenFrame(l, job) {
      var f :| f in l.deliveries && FrameOfJob(l, f, job) && FrameOpen(l.deliveries[f].status);
      assert FrameOfJob(l', f, job) && l'.deliveries[f] == RecoveredFrame(l.deliveries[f], now);
    }
    if OldUnknown(l, job, now) {
      var f :| f in l.deliveries && FrameOfJob(l, f, job) && l.deliveries[f].status == Unknown && l.deliveries[f].updatedAt == now;
      assert FrameOfJob(l', f, job) && l'.deliveries[f] == l.deliveries[f];
    }
  }

  /** While a run of the job is open, a delivery is unknown at this instant only if it already was. */
  lemma UnknownWhileRunning(l: Ledger, now: int, job: Id)
    requires !HasOpenFrame(l, job)
    ensures UnknownNow(RecoverRows(l, now), job, now) ==> OldUnknown(l, job, now)
  {
    hide Expired;
    var l' := RecoverRows(l, now);
    if UnknownNow(l', job, now) {
      var f :| f in l'.deliveries && FrameOfJob(l', f, job) && l'.deliveries[f].status == Unknown && l'.deliveries[f].updatedAt == now;
      assert FrameOfJob(l, f, job) && l'.deliveries[f] == RecoveredFrame(l.deliveries[f], now);
    }
  }

  lemma PacedFacts(l: Ledger, l': Ledger, now: int)
    requires Paced(l, l')
    ensures l'.jobs == l.jobs
    ensures forall j :: UnknownNow(l', j, now) == UnknownNow(l, j, now)
    ensures forall j :: HasOpenRun(l', j) == HasOpenRun(l, j)
    ensures forall j :: HasOpenFrame(l', j) == HasOpenFrame(l, j)
  {
    SameOpenWork(l, l');
    hide SameOpen;
    forall j ensures UnknownNow(l', j, now) == UnknownNow(l, j, now) {
      forall f ensures FrameOfJob(l, f, j) == FrameOfJob(l', f, j) {}
    }
  }

  lemma Listed(l: Ledger, jobs: seq<Id>, now: int, job: Id)
    requires ListsUnknown(l, jobs, now)
    ensures job in jobs <==> UnknownNow(l, job, now)
  {
    if job in jobs {
      var i :| 0 <= i < |jobs| && jobs[i] == job;
      assert UnknownNow(l, jobs[i], now);
    }
    if UnknownNow(l, job, now) {
      var f :| f in l.deliveries && FrameOfJob(l, f, job) && l.deliveries[f].status == Unknown && l.deliveries[f].updatedAt == now;
    }
  }

  /** What recovery does to one job: its open work, its place on the list of redactions, and its row. */
  ghost predicate RecoveredJob(l: Ledger, l2: Ledger, job: Id, listed: bool, stale: bool) {
    && HasOpenRun(l2, job) == HasOpenRun(l, job)
    && (HasOpenFrame(l2, job) ==> HasOpenFrame(l, job))
    && (HasOpenFrame(l, job) && !HasOpenFrame(l2, job) ==> listed)
    && (HasOpenRun(l, job) ==> !HasOpenFrame(l, job) && listed == stale)
    && l2.jobs.Keys == l.jobs.Keys
    && (job in l.jobs ==> RedactedIf(l.jobs[job], l2.jobs[job], listed && Terminal(l.jobs[job].status) && !HasOpenFrame(l2, job)))
  }

  /** Before any redaction: what recovery does to the open work of one job, and when the job will be listed. */
  lemma RecoveryBeforeRedaction(l: Ledger, l1: Ledger, now: int, job: Id)
    requires Refs(l) && OneBusy(l) && Paced(RecoverRows(l, now), l1)
    ensures l1.jobs == l.jobs && HasOpenRun(l1, job) == HasOpenRun(l, job)
    ensures HasOpenFrame(l1, job) ==> HasOpenFrame(l, job)
    ensures HasOpenFrame(l, job) && !HasOpenFrame(l1, job) ==> UnknownNow(l1, job, now)
    ensures HasOpenRun(l, job) ==> !HasOpenFrame(l, job) && UnknownNow(l1, job, now) == OldUnknown(l, job, now)
  {
    hide *;
    if HasOpenRun(l, job) {
      RunningHasNoOpenFrame(l, job);
      UnknownWhileRunning(l, now, job);
    }
    RecoverRowsRuns(l, now);
    RecoverRowsFrames(l, now, job);
    PacedFacts(RecoverRows(l, now), l1, now);
  }

  lemma RecoveryOfJob(l: Ledger, l0: Ledger, l1: Ledger, l2: Ledger, jobs: seq<Id>, now: int, job: Id)
    requires Refs(l) && OneBusy(l) && l0 == RecoverRows(l, now) && Paced(l0, l1) && ListsUnknown(l1, jobs, now)
    requires RedactedThose(l1, l2, jobs)
    ensures RecoveredJob(l, l2, job, job in jobs, OldUnknown(l, job, now))
  {
    hide Refs;
    hide OneBusy;
    hide RecoverRows;
    hide Paced;
    hide ListsUnknown;
    hide HasOpenRun;
    hide HasOpenFrame;
    hide UnknownNow;
    hide OldUnknown;
    hide RedactedIf;
    hide Terminal;
    hide SameOpen;
    RecoveryBeforeRedaction(l, l1, now, job);
    Listed(l1, jobs, now, job);
    SameOpenWork(l1, l2);
  }

  /** Recovery keeps one job exact, unless it has ended, its lifecycle run is open, and a delivery of it became unknown at this very instant. */
  lemma RecoverExactFor(l: Ledger, l2: Ledger, job: Id, listed: bool, stale: bool)
    requires ExactFor(l, job) && RecoveredJob(l, l2, job, listed, stale)
    ensures ExactFor(l2, job) <==> !(ErasableEarly(l, job) && stale)
  {
    hide HasOpenRun;
    hide HasOpenFrame;
  }

  lemma RunningHasNoOpenFrame(l: Ledger, job: Id)
    requires Refs(l) && OneBusy(l) && HasOpenRun(l, job)
    ensures !HasOpenFrame(l, job)
  {
    var r :| r in l.runs && l.runs[r].job == job && RunOpen(l.runs[r].status);
    forall f | f in l.deliveries && FrameOfJob(l, f, job) ensures !FrameOpen(l.deliveries[f].status) {
      assert Busy(l, r) && (FrameOpen(l.deliveries[f].status) ==> Busy(l, f.run));
    }
  }

  lemma RecoveredExact(l: Ledger, l2: Ledger, jobs: seq<Id>, now: int)
    requires Exact(l) && forall j: Id :: RecoveredJob(l, l2, j, j in jobs, OldUnknown(l, j, now))
    ensures Exact(l2) <==> !exists j | j in l.jobs :: ErasableEarly(l, j) && OldUnknown(l, j, now)
  {
    hide OldUnknown;
    hide ExactFor;
    forall j ensures ExactFor(l2, j) <==> !(ErasableEarly(l, j) && OldUnknown(l, j, now)) {
      RecoverExactFor(l, l2, j, j in jobs, OldUnknown(l, j, now));
    }
    hide RecoveredJob;
    hide HasOpenRun;
  }

  lemma RecoverExact(l: Ledger, runs: seq<Id>, jobs: seq<Id>, now: int, pace: nat)
    requires Refs(l) && OneBusy(l) && Exact(l)
    ensures Exact(After(l, Recover(l, runs, jobs, now, pace))) <==>
            !(Recover(l, runs, jobs, now, pace).Committed? && exists j | j in l.jobs :: ErasableEarly(l, j) && OldUnknown(l, j, now))
  {
    var l0 := RecoverRows(l, now);
    var l1 := PaceAll(l0, runs, now, pace);
    var l2 := RedactAll(l1, jobs);
    hide *;
    if Recover(l, runs, jobs, now, pace).Committed? {
      RecoverCommits(l, runs, jobs, now, pace);
      PaceAllPaced(l0, runs, now, pace);
      RedactAllEffect(l1, jobs);
      forall j: Id ensures RecoveredJob(l, l2, j, j in jobs, OldUnknown(l, j, now)) {
        RecoveryOfJob(l, l0, l1, l2, jobs, now, j);
      }
      RecoveredExact(l, l2, jobs, now);
    } else {
      RecoverAborts(l, runs, jobs, now, pace);
    }
  }

  lemma RecoverCommits(l: Ledger, runs: seq<Id>, jobs: seq<Id>, now: int, pace: nat)
    requires Recover(l, runs, jobs, now, pace).Committed?
    ensures var l1 := PaceAll(RecoverRows(l, now), runs, now, pace);
      After(l, Recover(l, runs, jobs, now, pace)) == RedactAll(l1, jobs) && ListsUnknown(l1, jobs, now)
  {
  }

  lemma RecoverAborts(l: Ledger, runs: seq<Id>, jobs: seq<Id>, now: int, pace: nat)
    requires !Recover(l, runs, jobs, now, pace).Committed?
    ensures After(l, Recover(l, runs, jobs, now, pace)) == l
  {
  }

  // ----- Revision bumps -----

  lemma BumpOpens(l: Ledger, id: Id, row: Job, now: int)
    requires Inv(l) && BumpReady(l, id, row)
    ensures var l' := Bump(l, id, row, now);
      l'.jobs == l.jobs[id := row] && !Open(l', id) && forall j | j != id :: Open(l', j) == Open(l, j)
  {
    var l' := Bump(l, id, row, now);
    BumpRuns(l, id, row, now);
    BumpFrames(l, id, row, now);
    assert l'.jobs == l.jobs[id := row];
    hide Bump;
    hide Inv;
    hide BumpReady;
    BumpOpenRuns(l, l', id);
    BumpOpenFrames(l, l', id);
  }

  lemma BumpOpenRuns(l: Ledger, l': Ledger, id: Id)
    requires l'.runs.Keys == l.runs.Keys && (forall r | r in l.runs :: RunBumped(l.runs[r], l'.runs[r], id))
    ensures !HasOpenRun(l', id) && forall j | j != id :: HasOpenRun(l', j) == HasOpenRun(l, j)
  {
    hide RunOpen;
    forall j ensures HasOpenRun(l', j) == (j != id && HasOpenRun(l, j)) {
      if HasOpenRun(l', j) {
        var r :| r in l'.runs && l'.runs[r].job == j && RunOpen(l'.runs[r].status);
        assert RunBumped(l.runs[r], l'.runs[r], id);
      }
      if j != id && HasOpenRun(l, j) {
        var r :| r in l.runs && l.runs[r].job == j && RunOpen(l.runs[r].status);
        assert RunBumped(l.runs[r], l'.runs[r], id);
      }
    }
  }

  lemma BumpOpenFrames(l: Ledger, l': Ledger, id: Id)
    requires l'.runs.Keys == l.runs.Keys && (forall r | r in l.runs :: RunBumped(l.runs[r], l'.runs[r], id))
    requires l'.deliveries.Keys == l.deliveries.Keys && (forall f | f in l.deliveries :: FrameBumped(l, l', f, id))
    ensures !HasOpenFrame(l', id) && forall j | j != id :: HasOpenFrame(l', j) == HasOpenFrame(l, j)
  {
    hide RunOpen;
    hide FrameOpen;
    forall j ensures HasOpenFrame(l', j) == (j != id && HasOpenFrame(l, j)) {
      if HasOpenFrame(l', j) {
        var f :| f in l'.deliveries && FrameOfJob(l', f, j) && FrameOpen(l'.deliveries[f].status);
        assert FrameBumped(l, l', f, id) && RunBumped(l.runs[f.run], l'.runs[f.run], id);
        assert FrameOfJob(l, f, j);
      }
      if j != id && HasOpenFrame(l, j) {
        var f :| f in l.deliveries && FrameOfJob(l, f, j) && FrameOpen(l.deliveries[f].status);
        assert FrameBumped(l, l', f, id) && RunBumped(l.runs[f.run], l'.runs[f.run], id);
        assert FrameOfJob(l', f, j);
      }
    }
  }

  lemma BumpExact(l: Ledger, id: Id, row: Job, now: int)
    requires Inv(l) && Exact(l) && BumpReady(l, id, row)
    ensures !Terminal(row.status) && row.content.Content? ==> Exact(Bump(l, id, row, now))
    ensures Terminal(row.status) ==> Exact(Redact(Bump(l, id, row, now), id))
  {
    var l' := Bump(l, id, row, now);
    BumpOpens(l, id, row, now);
    RedactSame(l', id);
    var l2 := Redact(l', id);
    hide Bump;
    hide Inv;
    hide Redact;
    hide BumpReady;
    SameOpenWork(l', l2);
    hide HasOpenFrame;
    hide HasOpenRun;
    hide SameOpen;
    forall j ensures !Terminal(row.status) && row.content.Content? ==> ExactFor(l', j) {
      assert ExactFor(l, j);
    }
    forall j ensures Terminal(row.status) ==> ExactFor(l2, j) {
      assert ExactFor(l, j);
    }
  }

  lemma UpdateExact(l: Ledger, owner: Id, id: Id, edit: Job, expected: nat, now: int)
    requires Inv(l) && Exact(l)
    ensures Exact(After(l, Update(l, owner, id, edit, expected, now)))
  {
    hide Exact;
    if ValidJob(edit) && Editable(l, owner, id, expected) && !Terminal(l.jobs[id].status) {
      var row := EditedJob(l.jobs[id], edit, now);
      EditableReady(l, owner, id, expected, row);
      assert row.content.Content? && !Terminal(row.status);
      hide EditedJob;
      hide Inv;
      hide InvalidateStale;
      BumpExact(l, id, row, now);
    }
  }

  lemma ChangeStatusExact(l: Ledger, owner: Id, id: Id, expected: nat, status: JobStatus, now: int)
    requires Inv(l) && Exact(l) && status != Ended
    ensures Exact(After(l, ChangeStatus(l, owner, id, expected, status, now)))
  {
    if Editable(l, owner, id, expected) && !Terminal(l.jobs[id].status) {
      var row := ChangedJob(l.jobs[id], status, now);
      EditableReady(l, owner, id, expected, row);
      assert ExactFor(l, id);
      assert row.content.Content? && Terminal(row.status) == (status == Cancelled);
      hide Exact;
      hide ExactFor;
      hide ChangedJob;
      hide Inv;
      hide InvalidateStale;
      hide Redact;
      BumpExact(l, id, row, now);
    }
  }

  lemma DeleteExact(l: Ledger, owner: Id, id: Id, expected: nat, now: int)
    requires Inv(l) && Exact(l)
    ensures Exact(After(l, Delete(l, owner, id, expected, now)))
  {
    hide Exact;
    if Editable(l, owner, id, expected) {
      var row := DeletedJob(l.jobs[id]);
      EditableReady(l, owner, id, expected, row);
      assert Terminal(row.status);
      hide DeletedJob;
      hide Inv;
      hide InvalidateStale;
      hide Redact;
      BumpExact(l, id, row, now);
    }
  }

  // ----- Work that starts or finishes -----

  /** A job that was not erased gets an open run. */
  lemma RunAddedExact(l: Ledger, l': Ledger, id: Id, row: Run, job: Job)
    requires Refs(l) && Exact(l) && id !in l.runs && row.job in l.jobs && RunOpen(row.status)
    requires !Terminal(l.jobs[row.job].status) && job.content == l.jobs[row.job].content
    requires l'.jobs == l.jobs[row.job := job] && l'.runs == l.runs[id := row] && l'.deliveries == l.deliveries
    ensures Exact(l')
  {
    forall j ensures HasOpenRun(l', j) == (j == row.job || HasOpenRun(l, j)) {
      if HasOpenRun(l, j) {
        var r :| r in l.runs && l.runs[r].job == j && RunOpen(l.runs[r].status);
        assert l'.runs[r] == l.runs[r];
      }
      assert l'.runs[id].job == row.job;
    }
    forall j ensures HasOpenFrame(l', j) == HasOpenFrame(l, j) {
      forall f | f in l.deliveries ensures FrameOfJob(l', f, j) == FrameOfJob(l, f, j) {}
    }
    hide HasOpenRun;
    hide HasOpenFrame;
    hide Refs;
    assert ExactFor(l, row.job);
    forall j ensures ExactFor(l', j) {
      assert ExactFor(l, j);
    }
  }

  lemma StartRunRows(l: Ledger, job: Id, due: int, trigger: Trigger, now: int, until: int, id: Id, token: Id)
    requires job in l.jobs && WellFormed(l.jobs[job].schedule)
    ensures var s := StartRun(l, job, due, trigger, now, until, id, token);
      s.Committed? ==>
        && id !in l.runs && id in s.ledger.runs && s.ledger.runs[id].job == job && RunOpen(s.ledger.runs[id].status)
        && job in s.ledger.jobs && s.ledger.jobs[job].content == l.jobs[job].content && s.ledger.jobs == l.jobs[job := s.ledger.jobs[job]]
        && s.ledger.runs == l.runs[id := s.ledger.runs[id]] && s.ledger.deliveries == l.deliveries
  {
    hide KeyTaken;
    hide WillEnd;
  }

  lemma OwedStartExact(l: Ledger, l1: Ledger, job: Id, due: int, trigger: Trigger, now: int, until: int, id: Id, token: Id)
    requires Refs(l) && Exact(l) && job in l.jobs && !Terminal(l.jobs[job].status) && job in l1.jobs && WellFormed(l1.jobs[job].schedule)
    requires l1 == SetJob(l, job, l1.jobs[job]) && l1.jobs[job].content == l.jobs[job].content
    ensures var s := StartRun(l1, job, due, trigger, now, until, id, token); s.Committed? ==> Exact(s.ledger)
  {
    StartRunRows(l1, job, due, trigger, now, until, id, token);
    hide StartRun;
    hide Exact;
    hide Refs;
    var s := StartRun(l1, job, due, trigger, now, until, id, token);
    if s.Committed? {
      RunAddedExact(l, s.ledger, id, s.ledger.runs[id], s.ledger.jobs[job]);
    }
  }

  lemma OwedRows(l: Ledger, job: Id, now: int)
    requires job in l.jobs && WellFormed(l.jobs[job].schedule) && l.jobs[job].status == Active
    ensures var o := WhatIsOwed(l, job, now);
      o.OwedRaised? || (job in o.ledger.jobs && o.ledger == SetJob(l, job, o.ledger.jobs[job])
        && o.ledger.jobs[job].content == l.jobs[job].content && o.ledger.jobs[job].schedule == l.jobs[job].schedule
        && (o.Nothing? ==> o.ledger.jobs[job].status == Active))
  {
    OwedCases(l, job, now);
    hide WhatIsOwed;
    assert SetJob(l, job, l.jobs[job]) == l;
    hide WellFormed;
  }

  lemma SetRowExact(l: Ledger, job: Id, row: Job)
    requires Exact(l) && job in l.jobs && row.content == l.jobs[job].content && row.status == l.jobs[job].status
    ensures Exact(SetJob(l, job, row))
  {
    NothingOpened(l, SetJob(l, job, row));
    hide Exact;
  }

  lemma {:induction false} ClaimJobsExact(l: Ledger, scan: seq<Id>, now: int, until: int, id: Id, token: Id)
    requires SchedulesValid(l) && Inv(l) && Exact(l)
    ensures Exact(After(l, ClaimJobs(l, scan, now, until, id, token)))
    decreases |scan|
  {
    hide Exact;
    hide WhatIsOwed;
    hide ActiveRun;
    hide StartRun;
    if scan != [] && scan[0] in l.jobs && l.jobs[scan[0]].status == Active {
      if ActiveRun(l, scan[0]) {
        ClaimJobsExact(l, scan[1..], now, until, id, token);
      } else {
        OwedKeeps(l, scan[0], now);
        OwedRows(l, scan[0], now);
        assert Refs(l);
        hide WellFormed;
        hide Inv;
        hide Refs;
        match WhatIsOwed(l, scan[0], now)
        case OwedRaised =>
        case Nothing(l') =>
          SetRowExact(l, scan[0], l'.jobs[scan[0]]);
          ClaimJobsExact(l', scan[1..], now, until, id, token);
        case Owed(l', due, trigger) => OwedStartExact(l, l', scan[0], due, trigger, now, until, id, token);
      }
    }
  }

  /** Live runs are leased, never invalidated. */
  lemma ClaimPendingSame(l: Ledger, scan: seq<Id>, now: int, until: int, token: Id)
    requires Inv(l)
    ensures var s := ClaimPending(l, scan, now, until, token); var l' := After(l, s); SameOpen(l, l') && SameStanding(l, l') && Inv(l')
  {
    if scan != [] && Claimable(l, scan[0], now) {
      ClaimNeverInvalidates(l, scan, now, until, token);
      ClaimPendingQuiet(l, scan, now, until, token);
      QuietKeeps(l, After(l, ClaimPending(l, scan, now, until, token)));
      hide ClaimPending;
      hide Inv;
      hide Quiet;
      SetRunSame(l, scan[0], l.runs[scan[0]].(status := RunLeased, leaseUntil := Some(until), token := Some(token)));
      hide SameOpen;
    }
  }

  lemma ClaimDueRunExact(l: Ledger, pending: seq<Id>, active: seq<Id>, now: int, until: int, id: Id, token: Id)
    requires SchedulesValid(l) && Inv(l) && Exact(l)
    ensures Exact(After(l, ClaimDueRun(l, pending, active, now, until, id, token)))
  {
    ClaimPendingSame(l, pending, now, until, token);
    var l' := After(l, ClaimPending(l, pending, now, until, token));
    hide ClaimPending;
    hide Inv;
    NothingOpened(l, l');
    hide SameOpen;
    hide SameStanding;
    hide Exact;
    hide ClaimJobs;
    if SchedulesValid(l') {
      ClaimJobsExact(l', active, now, until, id, token);
    }
  }

  lemma ManualRunExact(l: Ledger, owner: Id, job: Id, expected: Option<nat>, id: Id, now: int)
    requires Inv(l) && Exact(l)
    ensures Exact(After(l, RequestManualRun(l, owner, job, expected, id, now)))
  {
    hide ActiveRun;
    hide KeyTaken;
    if job in l.jobs && l.jobs[job].status == Active && id !in l.runs {
      var row := NewRun(l.jobs[job], job, now, Manually, now);
      var l' := SetRun(l, id, row);
      assert l'.jobs == l.jobs[job := l.jobs[job]];
      hide Exact;
      RunAddedExact(l, l', id, row, l.jobs[job]);
      hide Inv;
    }
  }

  /** A finished run hands over to its deliveries: the job stays open. */
  lemma RunFinishedOpen(l: Ledger, l': Ledger, run: Id)
    requires Refs(l) && OneBusy(l) && RunFinished(l, l', run)
    ensures Open(l, l.runs[run].job) && Open(l', l.runs[run].job)
    ensures forall j | j != l.runs[run].job :: Open(l', j) == Open(l, j)
  {
    var job := l.runs[run].job;
    assert FrameOfJob(l', Frame(run, 0), job);
    forall j | j != job ensures HasOpenFrame(l', j) == HasOpenFrame(l, j) && HasOpenRun(l', j) == HasOpenRun(l, j) {
      forall f | f in l.deliveries ensures FrameOfJob(l', f, j) == FrameOfJob(l, f, j) {}
      forall f | f in l'.deliveries && f !in l.deliveries ensures !FrameOfJob(l', f, j) {}
    }
  }

  lemma RunFinishedExact(l: Ledger, l': Ledger, run: Id)
    requires Refs(l) && OneBusy(l) && Exact(l) && RunFinished(l, l', run)
    ensures Exact(l')
  {
    RunFinishedOpen(l, l', run);
    hide Open;
    hide OneBusy;
    hide Refs;
    assert ExactFor(l, l.runs[run].job);
    forall j ensures ExactFor(l', j) {
      assert ExactFor(l, j);
    }
  }

  lemma CompleteRunExact(l: Ledger, run: Id, token: Id, outcome: RunOutcome, frames: seq<string>, now: int)
    requires Inv(l) && SchedulesValid(l) && Exact(l)
    ensures Exact(After(l, CompleteRun(l, run, token, outcome, frames, now)))
  {
    CompleteRunFinishes(l, run, token, outcome, frames, now);
    hide CompleteRun;
    hide CountMoves;
    hide Exact;
    assert Refs(l) && OneBusy(l);
    hide Inv;
    hide Refs;
    hide OneBusy;
    var s := CompleteRun(l, run, token, outcome, frames, now);
    if s.Committed? && s.value {
      RunFinishedExact(l, s.ledger, run);
    }
  }

  lemma FailRunRetries(l: Ledger, run: Id, token: Id, now: int)
    requires SchedulesValid(l) && Holds(l, run, token, true) && l.runs[run].attempts + 1 < MAX_RUN_ATTEMPTS
    ensures FailRun(l, run, token, now) == Committed(SetRun(l, run, RetriedRun(l.runs[run], now)), true)
  {
  }

  lemma FailRunExact(l: Ledger, run: Id, token: Id, now: int)
    requires Inv(l) && SchedulesValid(l) && Exact(l)
    ensures Exact(After(l, FailRun(l, run, token, now)))
  {
    FailRunShape(l, run, token, now);
    if Holds(l, run, token, true) && l.runs[run].attempts + 1 < MAX_RUN_ATTEMPTS {
      FailRunRetries(l, run, token, now);
      SetRunSame(l, run, RetriedRun(l.runs[run], now));
      NothingOpened(l, SetRun(l, run, RetriedRun(l.runs[run], now)));
      hide FailRun;
    } else {
      hide FailRun;
      hide CountMoves;
      hide Exact;
      hide Quiet;
      assert Refs(l) && OneBusy(l);
      hide Inv;
      hide Refs;
      hide OneBusy;
      var s := FailRun(l, run, token, now);
      if s.Committed? && s.value {
        FailRunHeld(l, run, token, now);
        RunFinishedExact(l, s.ledger, run);
      }
    }
  }

  lemma FailRunHeld(l: Ledger, run: Id, token: Id, now: int)
    requires SchedulesValid(l) && FailRun(l, run, token, now).Committed? && FailRun(l, run, token, now).value
    ensures Holds(l, run, token, true)
  {
  }

  // ----- Every call -----

  /** The three ways in which a call leaves content and open work out of step. */
  predicate BreaksExactness(l: Ledger, e: Event) {
    match e
    case Creating(id, job, _) => ValidJob(job) && id !in l.jobs && Terminal(job.status)
    case Redacting(owner, id) => id in l.jobs && l.jobs[id].owner == owner && ErasableEarly(l, id)
    case Recovering(runs, jobs, now, pace) =>
      Recover(l, runs, jobs, now, pace).Committed? && exists j | j in l.jobs :: ErasableEarly(l, j) && OldUnknown(l, j, now)
    case _ => false
  }

  lemma CreateExact(l: Ledger, id: Id, job: Job, now: int)
    requires Inv(l) && Exact(l)
    ensures Exact(After(l, Create(l, id, job, now))) <==> !(ValidJob(job) && id !in l.jobs && Terminal(job.status))
  {
    if ValidJob(job) && id !in l.jobs {
      var l' := SetJob(l, id, NewJob(job, now));
      assert SameOpen(l, l');
      SameOpenWork(l, l');
      assert !Open(l, id);
      hide Inv;
      hide HasOpenFrame;
      hide HasOpenRun;
      hide SameOpen;
      forall j | j != id ensures ExactFor(l', j) {
        assert ExactFor(l, j);
      }
      assert ExactFor(l', id) <==> !Terminal(job.status);
    }
  }

  lemma RedactingExact(l: Ledger, id: Id)
    requires Inv(l) && Exact(l)
    ensures Exact(Redact(l, id)) <==> !ErasableEarly(l, id)
  {
    var l' := Redact(l, id);
    RedactSame(l, id);
    SameOpenWork(l, l');
    if HasOpenRun(l, id) {
      RunningHasNoOpenFrame(l, id);
    }
    hide Redact;
    hide Inv;
    hide HasOpenFrame;
    hide HasOpenRun;
    hide SameOpen;
    assert ExactFor(l, id);
    forall j | j != id ensures ExactFor(l', j) {
      assert ExactFor(l, j);
    }
    assert ExactFor(l', id) <==> !ErasableEarly(l, id);
  }

  lemma ClaimDeliveryExact(l: Ledger, picks: seq<Frame>, now: int, until: int, token: Id)
    requires LiveFrames(l) && Exact(l)
    ensures Exact(After(l, ClaimDelivery(l, picks, now, until, token)))
  {
    hide Exact;
    if picks != [] && Eligible(l, picks[0], now) {
      var f := picks[0];
      var row := LeasedFrame(l.deliveries[f], now, until, token);
      DeliveryClaimNeverSuppresses(l, picks, now, until, token);
      hide ClaimDelivery;
      hide LiveFrames;
      SetFrameSame(l, f, row);
      NothingOpened(l, SetFrame(l, f, row));
      hide LeasedFrame;
    }
  }

  lemma LeaseEventsExact(l: Ledger, e: Event)
    requires SchedulesValid(l) && Exact(l) && (e.Renewing? || e.Beginning? || e.Deferring?)
    ensures Exact(Apply(l, e))
  {
    hide Permits;
    hide Exact;
    if Holds(l, e.run, e.token, true) {
      var row := l.runs[e.run];
      var row' := match e
        case Renewing(_, _, until) => row.(leaseUntil := Some(until))
        case Beginning(_, _, until) => row.(status := Executing, leaseUntil := Some(until))
        case Deferring(_, _, delay, now) => row.(status := RunRetryWait, availableAt := Later(now, delay), leaseUntil := None)
        case _ => row;
      SetRunSame(l, e.run, row');
      NothingOpened(l, SetRun(l, e.run, row'));
      hide SameOpen;
      assert Apply(l, e) == l || Apply(l, e) == SetRun(l, e.run, row');
    }
  }

  lemma AdmitExact(l: Ledger, f: Frame, token: Id, now: int)
    requires Exact(l)
    ensures Exact(After(l, AdmitDelivery(l, f, token, now)))
  {
    if HoldsFrame(l, f, token, Leased) && Admissible(l, f) {
      var row := l.deliveries[f].(status := Sending, updatedAt := now);
      SetFrameSame(l, f, row);
      NothingOpened(l, SetFrame(l, f, row));
      hide Exact;
    }
  }

  lemma LiveFramesOf(l: Ledger)
    requires Inv(l)
    ensures LiveFrames(l)
  {
  }

  lemma QuietEventsExact(l: Ledger, e: Event)
    requires SchedulesValid(l) && Inv(l) && Exact(l) && QuietEvent(e)
    ensures Exact(Apply(l, e)) <==> !BreaksExactness(l, e)
  {
    hide Exact;
    hide Inv;
    hide ClaimDelivery;
    hide AdmitDelivery;
    hide FinishDelivery;
    hide FailDelivery;
    hide Recover;
    hide Redact;
    match e
    case ClaimingDelivery(picks, now, until, token) =>
      LiveFramesOf(l);
      ClaimDeliveryExact(l, picks, now, until, token);
    case Finishing(f, token, result, now, pace) =>
      if !FrameOpen(result) {
        FinishDeliveryExact(l, f, token, result, now, pace);
      }
    case FailingDelivery(f, token, now, pace) => FailDeliveryExact(l, f, token, now, pace);
    case Recovering(runs, jobs, now, pace) => RecoveringExact(l, runs, jobs, now, pace);
    case Redacting(_, id) => RedactingExact(l, id);
    case Admitting(f, token, now) => AdmitExact(l, f, token, now);
    case _ => LeaseEventsExact(l, e);
  }

  lemma RecoveringExact(l: Ledger, runs: seq<Id>, jobs: seq<Id>, now: int, pace: nat)
    requires SchedulesValid(l) && Inv(l) && Exact(l)
    ensures Exact(Apply(l, Recovering(runs, jobs, now, pace))) <==> !BreaksExactness(l, Recovering(runs, jobs, now, pace))
  {
    RecoverExact(l, runs, jobs, now, pace);
    hide Exact;
    hide Inv;
    hide Recover;
    hide ErasableEarly;
    hide OldUnknown;
  }

  lemma WorkEventsExact(l: Ledger, e: Event)
    requires SchedulesValid(l) && Inv(l) && Exact(l) && !QuietEvent(e)
    ensures Exact(Apply(l, e)) <==> !BreaksExactness(l, e)
  {
    hide Exact;
    hide Inv;
    hide Create;
    hide Update;
    hide ChangeStatus;
    hide Delete;
    hide RequestManualRun;
    hide ClaimDueRun;
    hide CompleteRun;
    hide FailRun;
    match e
    case Creating(id, job, now) => CreateExact(l, id, job, now);
    case Updating(owner, id, edit, expected, now) => UpdateExact(l, owner, id, edit, expected, now);
    case Changing(owner, id, expected, status, now) =>
      if status != Ended {
        ChangeStatusExact(l, owner, id, expected, status, now);
      }
    case Deleting(owner, id, expected, now) => DeleteExact(l, owner, id, expected, now);
    case RequestingRun(owner, id, revision, run, now) => ManualRunExact(l, owner, id, revision, run, now);
    case ClaimingRun(pending, active, now, until, run, token) => ClaimDueRunExact(l, pending, active, now, until, run, token);
    case Completing(run, token, outcome, frames, now) => CompleteRunExact(l, run, token, outcome, frames, now);
    case Failing(run, token, now) => FailRunExact(l, run, token, now);
  }

  /** Each call keeps "erased exactly when terminal with no open work", exactly unless it creates a job that is
      already terminal, or erases an ended job while its lifecycle run is still open. */
  lemma ErasureStaysExact(l: Ledger, e: Event)
    requires SchedulesValid(l) && Inv(l) && Exact(l)
    ensures Exact(Apply(l, e)) <==> !BreaksExactness(l, e)
  {
    hide Exact;
    hide Inv;
    hide BreaksExactness;
    hide Apply;
    if QuietEvent(e) {
      QuietEventsExact(l, e);
    } else {
      WorkEventsExact(l, e);
    }
  }

  ghost predicate NeverBreaks(l: Ledger, events: seq<Event>)
    requires Inv(l)
    decreases |events|
  {
    events == [] || (!BreaksExactness(l, events[0]) && (ApplyKeeps(l, events[0]); NeverBreaks(Apply(l, events[0]), events[1..])))
  }

  /** Over whole histories without those calls, content is erased exactly when a terminal job has no active run. */
  lemma {:induction false} ErasedExactlyWhenSettled(l: Ledger, events: seq<Event>)
    requires Inv(l) && Exact(l) && NeverBreaks(l, events)
    ensures var l' := Play(l, events);
      Exact(l') && forall j | j in l'.jobs :: l'.jobs[j].content.Redacted? <==> Terminal(l'.jobs[j].status) && !ActiveRun(l', j)
    decreases |events|
  {
    if events != [] {
      ApplyKeeps(l, events[0]);
      ErasureStaysExact(l, events[0]);
      hide Exact;
      ErasedExactlyWhenSettled(Apply(l, events[0]), events[1..]);
    } else {
      forall j | j in l.jobs ensures l.jobs[j].content.Redacted? <==> Terminal(l.jobs[j].status) && !ActiveRun(l, j) {
        assert ExactFor(l, j);
        OpenIsActive(l, j);
      }
    }
  }
}
