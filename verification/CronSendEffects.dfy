/** What each store call on deliveries accepts and the rows it leaves, how later frames are held back, and what erasing
    and recovery touch: said of stored columns. */
module CronSendEffects {
  import opened Wrappers
  import opened CronSchedule
  import opened CronLedger
  import opened CronInvariant
  import opened CronTransitions
  import opened CronHistory
  import opened CronRedaction
  import opened CronSends

  // ----- Claiming and admitting -----

  /** A delivery may be claimed when it waits, its time has come, and every earlier one of its run is finished. */
  lemma EligibleExactly(l: Ledger, f: Frame, now: int)
    ensures Eligible(l, f, now) <==>
      && f in l.deliveries && (l.deliveries[f].status.Pending? || l.deliveries[f].status.RetryWait?) && l.deliveries[f].availableAt <= now
      && forall k: nat | k < f.sequence && Frame(f.run, k) in l.deliveries :: l.deliveries[Frame(f.run, k)].status !in [Pending, Leased, Sending, RetryWait]
  {
  }

  /** A claim leases the first row listed, counts the attempt, and changes nothing else; it raises exactly when the row
      has no destination. */
  lemma DeliveryClaimExactly(l: Ledger, picks: seq<Frame>, now: int, until: int, token: Id)
    requires Inv(l) && picks != [] && Eligible(l, picks[0], now)
    ensures var f := picks[0]; var d := l.deliveries[f];
      ClaimDelivery(l, picks, now, until, token) ==
        if d.destination.None? then Aborted
        else Committed(Ledger(l.jobs, l.runs, l.deliveries[f := Delivery(Leased, d.attempts + 1, d.availableAt, Some(until), Some(token), d.output, d.jobRevision, now, d.destination)]), Some(f))
  {
    LiveFramesOf(l);
    hide Inv;
    DeliveryClaimNeverSuppresses(l, picks, now, until, token);
    hide ClaimDelivery;
  }

  /** The loop of the claim: a listed delivery of a job that was edited or cancelled since would be suppressed, its job
      erased if it can be, and the next one tried; without one nothing is claimed. */
  lemma StaleDeliveriesAreSuppressed(l: Ledger, f: Frame, rest: seq<Frame>, now: int, until: int, token: Id)
    requires Eligible(l, f, now) && f.run in l.runs && l.runs[f.run].job in l.jobs
    requires l.runs[f.run].revision != l.jobs[l.runs[f.run].job].revision || l.jobs[l.runs[f.run].job].status.Cancelled?
    ensures ClaimDelivery(l, [], now, until, token) == Committed(l, None)
    ensures ClaimDelivery(l, [f] + rest, now, until, token) ==
      ClaimDelivery(Redact(Ledger(l.jobs, l.runs, l.deliveries[f := l.deliveries[f].(status := Suppressed, updatedAt := now)]), l.runs[f.run].job), rest, now, until, token)
  {
    assert ([f] + rest)[0] == f && ([f] + rest)[1..] == rest;
    hide Redact;
    hide Eligible;
  }

  /** The fence before a send: the lease is held, and the job has not been edited since and is active or ended. */
  lemma AdmissionExactly(l: Ledger, f: Frame, token: Id, now: int)
    ensures AdmitDelivery(l, f, token, now) ==
      if f in l.deliveries && l.deliveries[f].token == Some(token) && l.deliveries[f].status.Leased? && f.run in l.runs
         && l.runs[f.run].job in l.jobs && l.jobs[l.runs[f.run].job].revision == l.deliveries[f].jobRevision
         && (l.jobs[l.runs[f.run].job].status.Active? || l.jobs[l.runs[f.run].job].status.Ended?)
      then Committed(Ledger(l.jobs, l.runs, l.deliveries[f := l.deliveries[f].(status := Sending, updatedAt := now)]), true)
      else Committed(l, false)
  {
  }

  // ----- Erasing -----

  /** A job is erased when it has ended or was cancelled and no delivery of its runs is unfinished: then it loses its
      content, and its runs and their deliveries lose their text. Otherwise nothing changes. */
  lemma ErasureExactly(l: Ledger, job: Id)
    ensures var l' := Redact(l, job);
      if job in l.jobs && (l.jobs[job].status.Ended? || l.jobs[job].status.Cancelled?)
         && forall f | f in l.deliveries && f.run in l.runs && l.runs[f.run].job == job :: l.deliveries[f].status !in [Pending, Leased, Sending, RetryWait]
      then
        && l'.jobs == l.jobs[job := l.jobs[job].(content := Redacted)]
        && l'.runs.Keys == l.runs.Keys && l'.deliveries.Keys == l.deliveries.Keys
        && (forall r | r in l.runs :: l'.runs[r] == if l.runs[r].job == job then l.runs[r].(output := None) else l.runs[r])
        && (forall f | f in l.deliveries :: l'.deliveries[f] == if f.run in l.runs && l.runs[f.run].job == job then l.deliveries[f].(output := None) else l.deliveries[f])
      else l' == l
  {
    if f :| f in l.deliveries && f.run in l.runs && l.runs[f.run].job == job && l.deliveries[f].status in [Pending, Leased, Sending, RetryWait] {
      assert HasOpenFrame(l, job);
    }
  }

  // ----- Holding later frames back -----

  /** The row of a waiting delivery that may not go out before an instant. */
  function HeldBack(d: Delivery, least: int, now: int): Delivery {
    d.(availableAt := if d.availableAt < least then least else d.availableAt, updatedAt := now)
  }

  /** With a pace, a waiting delivery is held back until that long from now; nothing else changes. */
  lemma PaceExactly(l: Ledger, f: Frame, now: int, pace: nat)
    ensures PaceFrame(l, f, now, pace) ==
      if pace > 0 && f in l.deliveries && (l.deliveries[f].status.Pending? || l.deliveries[f].status.RetryWait?)
      then Ledger(l.jobs, l.runs, l.deliveries[f := HeldBack(l.deliveries[f], now + pace, now)]) else l
  {
  }

  ghost predicate FirstThatWaits(l: Ledger, run: Id, f: Frame) {
    && f.run == run && f.sequence < 3 && f in l.deliveries && (l.deliveries[f].status.Pending? || l.deliveries[f].status.RetryWait?)
    && forall k: nat | k < f.sequence && Frame(run, k) in l.deliveries :: !(l.deliveries[Frame(run, k)].status.Pending? || l.deliveries[Frame(run, k)].status.RetryWait?)
  }

  lemma {:induction false} FirstWaitingFrom(l: Ledger, run: Id, sequence: nat, bound: nat)
    requires sequence + bound == 3
    requires forall k: nat | k < sequence && Frame(run, k) in l.deliveries :: !Waiting(l.deliveries[Frame(run, k)].status)
    ensures match FirstWaiting(l, run, sequence, bound)
            case Some(f) => FirstThatWaits(l, run, f)
            case None => forall f :: !FirstThatWaits(l, run, f)
    decreases bound
  {
    if bound > 0 && !(Frame(run, sequence) in l.deliveries && Waiting(l.deliveries[Frame(run, sequence)].status)) {
      FirstWaitingFrom(l, run, sequence + 1, bound - 1);
    }
  }

  lemma FirstWaitingExactly(l: Ledger, run: Id, f: Frame)
    ensures FirstWaiting(l, run, 0, 3) == Some(f) <==> FirstThatWaits(l, run, f)
  {
    FirstWaitingFrom(l, run, 0, 3);
    hide FirstWaiting;
    forall g | FirstThatWaits(l, run, f) && FirstThatWaits(l, run, g) ensures f == g {}
  }

  // ----- Reporting a send -----

  predicate IsSending(l: Ledger, f: Frame, token: Id) {
    f in l.deliveries && l.deliveries[f].token == Some(token) && l.deliveries[f].status.Sending? && f.run in l.runs
  }

  /** A report on a send that is still held settles its delivery, holds back the next frame of the run unless the frame
      was suppressed, and then erases the job if it can be. */
  lemma SettlingExactly(l: Ledger, f: Frame, token: Id, status: DeliveryStatus, now: int, pace: nat)
    ensures var settled := Ledger(l.jobs, l.runs, if f in l.deliveries then l.deliveries[f := l.deliveries[f].(status := status, leaseUntil := None, updatedAt := now)] else l.deliveries);
      FinishDelivery(l, f, token, status, now, pace) ==
        if !IsSending(l, f, token) then Committed(l, false)
        else Committed(Redact(if status.Suppressed? then settled else PaceFrame(settled, Frame(f.run, f.sequence + 1), now, pace), l.runs[f.run].job), true)
  {
    hide Redact;
    hide PaceFrame;
  }

  /** A rejected send is tried again after 1, 2, 4 and 8 seconds; the fifth attempt is the last, and then the first
      delivery of the run that waits is held back and the job is erased if it can be. */
  lemma RejectionExactly(l: Ledger, f: Frame, token: Id, now: int, pace: nat)
    requires f in l.deliveries && l.deliveries[f].attempts >= 1
    ensures var d := l.deliveries[f];
      var failed := d.(availableAt := now + PowerOfTwo(d.attempts - 1) * 1_000_000, leaseUntil := None, updatedAt := now);
      var exhausted := Ledger(l.jobs, l.runs, l.deliveries[f := failed.(status := Exhausted)]);
      FailDelivery(l, f, token, now, pace) ==
        if !IsSending(l, f, token) then Committed(l, false)
        else if d.attempts < 5 then Committed(Ledger(l.jobs, l.runs, l.deliveries[f := failed.(status := RetryWait)]), true)
        else Committed(Redact(PaceFirst(exhausted, f.run, now, pace), l.runs[f.run].job), true)
  {
    hide Redact;
    hide PaceFirst;
    hide PowerOfTwo;
  }

  lemma PaceFirstExactly(l: Ledger, run: Id, now: int, pace: nat)
    ensures var l' := PaceFirst(l, run, now, pace);
      && l'.jobs == l.jobs && l'.runs == l.runs && l'.deliveries.Keys == l.deliveries.Keys
      && forall f | f in l.deliveries :: l'.deliveries[f] ==
           if pace > 0 && FirstThatWaits(l, run, f) then HeldBack(l.deliveries[f], now + pace, now) else l.deliveries[f]
  {
    forall f ensures FirstWaiting(l, run, 0, 3) == Some(f) <==> FirstThatWaits(l, run, f) {
      FirstWaitingExactly(l, run, f);
    }
    hide FirstWaiting;
  }

  // ----- Recovery -----

  /** An expired lease of a run is given back. */
  function RunAfterRecovery(r: Run, now: int): Run {
    if (r.status.RunLeased? || r.status.Executing?) && r.leaseUntil.Some? && r.leaseUntil.value < now
    then r.(status := RunPending, leaseUntil := None) else r
  }

  /** An expired lease of a delivery is given back; a send that was under way may have been accepted. */
  function DeliveryAfterRecovery(d: Delivery, now: int): Delivery {
    if d.leaseUntil.Some? && d.leaseUntil.value < now && d.status.Leased? then d.(status := Pending, leaseUntil := None, updatedAt := now)
    else if d.leaseUntil.Some? && d.leaseUntil.value < now && d.status.Sending? then d.(status := Unknown, leaseUntil := None, updatedAt := now)
    else d
  }

  lemma RowsRecoverExactly(l: Ledger, now: int)
    ensures var l' := RecoverRows(l, now);
      && l'.jobs == l.jobs && l'.runs.Keys == l.runs.Keys && l'.deliveries.Keys == l.deliveries.Keys
      && (forall r | r in l.runs :: l'.runs[r] == RunAfterRecovery(l.runs[r], now))
      && (forall f | f in l.deliveries :: l'.deliveries[f] == DeliveryAfterRecovery(l.deliveries[f], now))
  {
  }

  ghost predicate HeldBackIn(l: Ledger, runs: seq<Id>, f: Frame) {
    exists i | 0 <= i < |runs| :: FirstThatWaits(l, runs[i], f)
  }

  ghost predicate HoldsBack(l: Ledger, l': Ledger, runs: seq<Id>, now: int, pace: nat) {
    && l'.jobs == l.jobs && l'.runs == l.runs && l'.deliveries.Keys == l.deliveries.Keys
    && forall f | f in l.deliveries :: l'.deliveries[f] ==
         if pace > 0 && HeldBackIn(l, runs, f) then HeldBack(l.deliveries[f], now + pace, now) else l.deliveries[f]
  }

  lemma {:induction false} PaceAllExactly(l: Ledger, runs: seq<Id>, now: int, pace: nat)
    ensures HoldsBack(l, PaceAll(l, runs, now, pace), runs, now, pace)
    decreases |runs|
  {
    if runs != [] {
      var l1 := PaceFirst(l, runs[0], now, pace);
      PaceFirstExactly(l, runs[0], now, pace);
      hide PaceFirst;
      PaceAllExactly(l1, runs[1..], now, pace);
      forall run, f ensures FirstThatWaits(l1, run, f) <==> FirstThatWaits(l, run, f) {
        SameWaiting(l, l1, run, f);
      }
      forall f ensures HeldBackIn(l, runs, f) <==> FirstThatWaits(l, runs[0], f) || HeldBackIn(l1, runs[1..], f) {
        if i :| 0 <= i < |runs| && FirstThatWaits(l, runs[i], f) {
          assert i > 0 ==> FirstThatWaits(l1, runs[1..][i - 1], f);
        }
        if i :| 0 <= i < |runs[1..]| && FirstThatWaits(l1, runs[1..][i], f) {
          assert FirstThatWaits(l, runs[i + 1], f);
        }
      }
      hide FirstThatWaits;
      hide HeldBackIn;
    } else {
      forall f ensures !HeldBackIn(l, runs, f) {}
    }
  }

  lemma SameWaiting(l: Ledger, l1: Ledger, run: Id, f: Frame)
    requires l1.deliveries.Keys == l.deliveries.Keys && forall g | g in l.deliveries :: l1.deliveries[g].status == l.deliveries[g].status
    ensures FirstThatWaits(l1, run, f) <==> FirstThatWaits(l, run, f)
  {
  }

  /** Recovery gives back expired leases, holds back the first delivery that waits behind each send that expired, and
      then erases, one after the other, the jobs with a delivery that became unknown at that instant. */
  lemma RecoveryExactly(l: Ledger, runs: seq<Id>, jobs: seq<Id>, now: int, pace: nat)
    requires Recover(l, runs, jobs, now, pace).Committed?
    ensures exists l0: Ledger, l1: Ledger ::
      && l0.jobs == l.jobs && l0.runs.Keys == l.runs.Keys && l0.deliveries.Keys == l.deliveries.Keys
      && (forall r | r in l.runs :: l0.runs[r] == RunAfterRecovery(l.runs[r], now))
      && (forall f | f in l.deliveries :: l0.deliveries[f] == DeliveryAfterRecovery(l.deliveries[f], now))
      && HoldsBack(l0, l1, runs, now, pace) && Recover(l, runs, jobs, now, pace).ledger == RedactAll(l1, jobs)
      && (forall r :: r in runs <==> exists f | f in l.deliveries :: f.run == r && l.deliveries[f].status.Sending? && l.deliveries[f].leaseUntil.Some? && l.deliveries[f].leaseUntil.value < now)
      && (forall j :: j in jobs <==> exists f | f in l1.deliveries :: f.run in l1.runs && l1.runs[f.run].job == j && l1.deliveries[f].status.Unknown? && l1.deliveries[f].updatedAt == now)
  {
    var l0 := RecoverRows(l, now);
    var l1 := PaceAll(l0, runs, now, pace);
    RowsRecoverExactly(l, now);
    PaceAllExactly(l0, runs, now, pace);
    hide RecoverRows;
    hide PaceAll;
    hide RedactAll;
    hide HoldsBack;
    ListedSends(l, runs, now);
    ListedUnknown(l1, jobs, now);
    hide ListsExpiredSends;
    hide ListsUnknown;
    hide RunAfterRecovery;
    hide DeliveryAfterRecovery;
  }

  lemma ListedSends(l: Ledger, runs: seq<Id>, now: int)
    requires ListsExpiredSends(l, runs, now)
    ensures forall r :: r in runs <==> exists f | f in l.deliveries :: f.run == r && l.deliveries[f].status.Sending? && l.deliveries[f].leaseUntil.Some? && l.deliveries[f].leaseUntil.value < now
  {
    forall r | r in runs ensures ExpiredSend(l, r, now) {}
  }

  lemma ListedUnknown(l: Ledger, jobs: seq<Id>, now: int)
    requires ListsUnknown(l, jobs, now)
    ensures forall j :: j in jobs <==> exists f | f in l.deliveries :: f.run in l.runs && l.runs[f.run].job == j && l.deliveries[f].status.Unknown? && l.deliveries[f].updatedAt == now
  {
    forall j | j in jobs ensures UnknownNow(l, j, now) {}
  }

  // ----- The moves of a worker -----

  /** A worker claims under a fresh token, and is admitted, calls the connector and reports once each, in this order; the
      log records every call of the connector; a report says what the connector answered: delivered, of unknown outcome,
      or failed. Nothing else changes what workers do. */
  lemma MovesExactly(w: World, token: Id, picks: seq<Frame>, result: SendResult, now: int, until: int, pace: nat, e: Event)
    requires SchedulesValid(w.ledger)
    ensures var s := ClaimDelivery(w.ledger, picks, now, until, token);
      Next(w, Claims(picks, now, until, token)) ==
        if token in w.workers || s.Aborted? then w
        else World(s.ledger, if s.value.Some? then w.workers[token := Attempt(s.value.value, Claimed)] else w.workers, w.log)
    ensures Next(w, Admits(token, now)) ==
      if token !in w.workers || !w.workers[token].phase.Claimed? then w
      else
        var f := w.workers[token].frame;
        var s := AdmitDelivery(w.ledger, f, token, now);
        if s == Committed(s.ledger, true) then World(s.ledger, w.workers[token := Attempt(f, Admitted)], w.log)
        else World(w.ledger, w.workers[token := Attempt(f, Done)], w.log)
    ensures Next(w, Sends(token, result)) ==
      if token !in w.workers || !w.workers[token].phase.Admitted? then w
      else World(w.ledger, w.workers[token := Attempt(w.workers[token].frame, Sent(result))], w.log + [Send(w.workers[token].frame, result)])
    ensures Next(w, Reports(token, now, pace)) ==
      if token !in w.workers || !w.workers[token].phase.Sent? then w
      else
        var f := w.workers[token].frame;
        var s := match w.workers[token].phase.result
          case Accepted => FinishDelivery(w.ledger, f, token, Delivered, now, pace)
          case Uncertain => FinishDelivery(w.ledger, f, token, Unknown, now, pace)
          case Rejected => FailDelivery(w.ledger, f, token, now, pace);
        World(After(w.ledger, s), w.workers[token := Attempt(f, Done)], w.log)
    ensures Next(w, Other(e)) ==
      if e.ClaimingDelivery? || e.Admitting? || e.Finishing? || e.FailingDelivery? then w else World(Apply(w.ledger, e), w.workers, w.log)
  {
    AdmissionLeaves(w.ledger, if token in w.workers then w.workers[token].frame else Frame(0, 0), token, now);
    hide ClaimDelivery;
    hide AdmitDelivery;
    hide FinishDelivery;
    hide FailDelivery;
    hide Apply;
  }

  lemma AdmissionLeaves(l: Ledger, f: Frame, token: Id, now: int)
    ensures var s := AdmitDelivery(l, f, token, now); s.Committed? && (!s.value ==> s.ledger == l)
  {
    hide HoldsFrame;
    hide Admissible;
  }
}
