/** The send protocol: workers claim, are admitted, call the connector and report, while the ledger moves on,
    leases expire and workers stop at any point. */
module CronSends {
  import opened Wrappers
  import opened CronSchedule
  import opened CronLedger
  import opened CronInvariant
  import opened CronTransitions
  import opened CronHistory
  import opened CronGrowth
  import opened CronRedaction

  /** What the connector call tells the worker; nobody learns more about an uncertain outcome. */
  datatype SendResult = Accepted | Uncertain | Rejected

  datatype Phase = Claimed | Admitted | Sent(result: SendResult) | Done

  /** One worker per successful claim, named by the fresh lease token of that claim. */
  datatype Attempt = Attempt(frame: Frame, phase: Phase)

  datatype Send = Send(frame: Frame, result: SendResult)

  datatype World = World(ledger: Ledger, workers: map<Id, Attempt>, log: seq<Send>)

  const START := World(EMPTY, map[], [])

  datatype Move =
    | Claims(picks: seq<Frame>, now: int, until: int, token: Id)
    | Admits(token: Id, now: int)
    | Sends(token: Id, result: SendResult)
    | Reports(token: Id, now: int, pace: nat)
    | Other(event: Event)

  /** The calls that only workers make, through the moves above. */
  predicate WorkerCall(e: Event) {
    e.ClaimingDelivery? || e.Admitting? || e.Finishing? || e.FailingDelivery?
  }

  predicate InPhase(w: World, token: Id, phase: Phase) {
    token in w.workers && w.workers[token].phase == phase
  }

  function Moved(w: World, ledger: Ledger, token: Id, phase: Phase): World
    requires token in w.workers
  {
    w.(ledger := ledger, workers := w.workers[token := w.workers[token].(phase := phase)])
  }

  function Report(l: Ledger, f: Frame, token: Id, result: SendResult, now: int, pace: nat): Step<bool> {
    match result
    case Accepted => FinishDelivery(l, f, token, Delivered, now, pace)
    case Uncertain => FinishDelivery(l, f, token, Unknown, now, pace)
    case Rejected => FailDelivery(l, f, token, now, pace)
  }

  function Next(w: World, m: Move): World
    requires SchedulesValid(w.ledger)
  {
    match m
    case Claims(picks, now, until, token) =>
      if token in w.workers then w
      else (
        match ClaimDelivery(w.ledger, picks, now, until, token)
        case Committed(l, Some(f)) => World(l, w.workers[token := Attempt(f, Claimed)], w.log)
        case s => w.(ledger := After(w.ledger, s)))
    case Admits(token, now) =>
      if !InPhase(w, token, Claimed) then w
      else
        var s := AdmitDelivery(w.ledger, w.workers[token].frame, token, now);
        Moved(w, After(w.ledger, s), token, if s.value then Admitted else Done)
    case Sends(token, result) =>
      if !InPhase(w, token, Admitted) then w
      else Moved(w, w.ledger, token, Sent(result)).(log := w.log + [Send(w.workers[token].frame, result)])
    case Reports(token, now, pace) =>
      if !(token in w.workers && w.workers[token].phase.Sent?) then w
      else Moved(w, After(w.ledger, Report(w.ledger, w.workers[token].frame, token, w.workers[token].phase.result, now, pace)), token, Done)
    case Other(e) => if WorkerCall(e) then w else w.(ledger := Apply(w.ledger, e))
  }

  /** What the connector was asked to do for one delivery, in order. */
  function SendsOf(log: seq<Send>, f: Frame): seq<SendResult>
    decreases |log|
  {
    if log == [] then []
    else
      var last := log[|log| - 1];
      SendsOf(log[..|log| - 1], f) + if last.frame == f then [last.result] else []
  }

  predicate AllRejected(results: seq<SendResult>) {
    forall i | 0 <= i < |results| :: results[i] == Rejected
  }

  /** Only the last send of a delivery may have been accepted or left uncertain. */
  predicate OnlyLastMayReach(results: seq<SendResult>) {
    results == [] || AllRejected(results[..|results| - 1])
  }

  predicate EarlierDone(l: Ledger, f: Frame) {
    forall k: nat | k < f.sequence && Frame(f.run, k) in l.deliveries :: !FrameOpen(l.deliveries[Frame(f.run, k)].status)
  }

  predicate Live(w: World, token: Id) {
    token in w.workers && (w.workers[token].phase == Admitted || w.workers[token].phase.Sent?)
  }

  // ----- The invariant -----

  /** A worker's delivery exists, and everything before it in its run is finished. */
  ghost predicate Ordered(w: World) {
    forall t | t in w.workers :: w.workers[t].frame in w.ledger.deliveries && EarlierDone(w.ledger, w.workers[t].frame)
  }

  /** A live worker holds its delivery, unless recovery already settled it. */
  ghost predicate Holding(w: World) {
    forall t | Live(w, t) :: var f := w.workers[t].frame;
      f in w.ledger.deliveries && (!FrameOpen(w.ledger.deliveries[f].status) || (w.ledger.deliveries[f].status == Sending && w.ledger.deliveries[f].token == Some(t)))
  }

  ghost predicate OneLive(w: World) {
    forall t, u | Live(w, t) && Live(w, u) && w.workers[t].frame == w.workers[u].frame :: t == u
  }

  /** An admitted worker is about to make at most the fifth send, all earlier ones having been rejected. */
  ghost predicate AdmittedMaySend(w: World) {
    forall t | InPhase(w, t, Admitted) :: var s := SendsOf(w.log, w.workers[t].frame); AllRejected(s) && |s| < MAX_DELIVERY_ATTEMPTS
  }

  /** The row of a delivery accounts for the sends made for it. */
  ghost predicate Accounted(w: World, f: Frame, d: Delivery) {
    var s := SendsOf(w.log, f);
    && (Waiting(d.status) || d.status == Leased ==> AllRejected(s) && |s| < MAX_DELIVERY_ATTEMPTS && |s| <= d.attempts)
    && (d.status == Leased ==> |s| < d.attempts)
    && (d.status == Sending ==>
        && d.token.Some? && Live(w, d.token.value) && w.workers[d.token.value].frame == f
        && |s| <= d.attempts && (w.workers[d.token.value].phase == Admitted ==> |s| < d.attempts)
        && (w.workers[d.token.value].phase == Sent(Rejected) ==> AllRejected(s)))
  }

  ghost predicate AllAccounted(w: World) {
    forall f | f in w.ledger.deliveries :: Accounted(w, f, w.ledger.deliveries[f])
  }

  ghost predicate LogSafe(w: World) {
    forall f :: var s := SendsOf(w.log, f);
      OnlyLastMayReach(s) && |s| <= MAX_DELIVERY_ATTEMPTS && (s != [] ==> f in w.ledger.deliveries)
  }

  ghost predicate Protocol(w: World) {
    Holding(w) && OneLive(w) && AdmittedMaySend(w) && AllAccounted(w) && LogSafe(w)
  }

  ghost predicate Safe(w: World) {
    Inv(w.ledger) && Ordered(w) && Protocol(w)
  }

  // ----- How ledger calls outside the protocol move deliveries -----

  /** A delivery may settle or go back to waiting, but it is never leased or put on the wire. */
  ghost predicate FrameStep(a: Delivery, b: Delivery) {
    && (!FrameOpen(a.status) ==> !FrameOpen(b.status))
    && (FrameOpen(b.status) ==> b.attempts == a.attempts && b.token == a.token)
    && (b.status == Sending <==> a.status == Sending && FrameOpen(b.status))
    && (b.status == Leased ==> a.status == Leased)
  }

  ghost predicate FramesMove(l: Ledger, l': Ledger) {
    && (forall f | f in l.deliveries :: f in l'.deliveries && FrameStep(l.deliveries[f], l'.deliveries[f]))
    && (forall f | f in l'.deliveries && f !in l.deliveries :: BrandNew(l'.deliveries[f]))
  }

  lemma FramesMoveTrans(a: Ledger, b: Ledger, c: Ledger)
    requires FramesMove(a, b) && FramesMove(b, c) && b.deliveries.Keys == a.deliveries.Keys
    ensures FramesMove(a, c)
  {
    forall f | f in a.deliveries ensures f in c.deliveries && FrameStep(a.deliveries[f], c.deliveries[f]) {
      assert FrameStep(a.deliveries[f], b.deliveries[f]) && FrameStep(b.deliveries[f], c.deliveries[f]);
    }
  }

  lemma SameFramesMove(l: Ledger, l': Ledger)
    requires l'.deliveries == l.deliveries
    ensures FramesMove(l, l')
  {
  }

  lemma RedactMoves(l: Ledger, job: Id)
    ensures FramesMove(l, Redact(l, job)) && Redact(l, job).deliveries.Keys == l.deliveries.Keys
  {
    hide HasOpenFrame;
  }

  lemma {:induction false} RedactAllMoves(l: Ledger, jobs: seq<Id>)
    ensures FramesMove(l, RedactAll(l, jobs))
    decreases |jobs|
  {
    hide Redact;
    hide FrameStep;
    if jobs == [] {
      SameFramesMove(l, l);
    } else {
      var l1 := Redact(l, jobs[0]);
      RedactMoves(l, jobs[0]);
      RedactAllMoves(l1, jobs[1..]);
      FramesMoveTrans(l, l1, RedactAll(l1, jobs[1..]));
    }
  }

  lemma PaceFrameMoves(l: Ledger, f: Frame, now: int, pace: nat)
    ensures FramesMove(l, PaceFrame(l, f, now, pace)) && PaceFrame(l, f, now, pace).deliveries.Keys == l.deliveries.Keys
  {
  }

  lemma PaceFirstMoves(l: Ledger, run: Id, now: int, pace: nat)
    ensures FramesMove(l, PaceFirst(l, run, now, pace)) && PaceFirst(l, run, now, pace).deliveries.Keys == l.deliveries.Keys
  {
    hide PaceFrame;
    hide FrameStep;
    hide FirstWaiting;
    match FirstWaiting(l, run, 0, 3)
    case None => SameFramesMove(l, l);
    case Some(f) => PaceFrameMoves(l, f, now, pace);
  }

  lemma {:induction false} PaceAllMoves(l: Ledger, runs: seq<Id>, now: int, pace: nat)
    ensures FramesMove(l, PaceAll(l, runs, now, pace)) && PaceAll(l, runs, now, pace).deliveries.Keys == l.deliveries.Keys
    decreases |runs|
  {
    hide PaceFirst;
    hide FrameStep;
    if runs == [] {
      SameFramesMove(l, l);
    } else {
      var l1 := PaceFirst(l, runs[0], now, pace);
      PaceFirstMoves(l, runs[0], now, pace);
      PaceAllMoves(l1, runs[1..], now, pace);
      FramesMoveTrans(l, l1, PaceAll(l1, runs[1..], now, pace));
    }
  }

  lemma RecoverRowsMoves(l: Ledger, now: int)
    ensures FramesMove(l, RecoverRows(l, now)) && RecoverRows(l, now).deliveries.Keys == l.deliveries.Keys
  {
    hide Expired;
  }

  lemma RecoverMoves(l: Ledger, runs: seq<Id>, jobs: seq<Id>, now: int, pace: nat)
    ensures FramesMove(l, After(l, Recover(l, runs, jobs, now, pace)))
  {
    var l0 := RecoverRows(l, now);
    var l1 := PaceAll(l0, runs, now, pace);
    hide *;
    if Recover(l, runs, jobs, now, pace).Committed? {
      RecoverCommits(l, runs, jobs, now, pace);
      RecoverRowsMoves(l, now);
      PaceAllMoves(l0, runs, now, pace);
      RedactAllMoves(l1, jobs);
      FramesMoveTrans(l, l0, l1);
      FramesMoveTrans(l, l1, RedactAll(l1, jobs));
    } else {
      RecoverAborts(l, runs, jobs, now, pace);
      SameFramesMove(l, l);
    }
  }

  lemma BumpMoves(l: Ledger, id: Id, row: Job, now: int)
    requires id in l.jobs
    ensures FramesMove(l, Bump(l, id, row, now)) && Bump(l, id, row, now).deliveries.Keys == l.deliveries.Keys
  {
    hide FrameOfJob;
  }

  lemma BumpRedactMoves(l: Ledger, id: Id, row: Job, now: int)
    requires id in l.jobs
    ensures FramesMove(l, Bump(l, id, row, now)) && FramesMove(l, Redact(Bump(l, id, row, now), id))
  {
    BumpMoves(l, id, row, now);
    hide Bump;
    RedactMoves(Bump(l, id, row, now), id);
    hide Redact;
    hide FrameStep;
    FramesMoveTrans(l, Bump(l, id, row, now), Redact(Bump(l, id, row, now), id));
  }

  lemma JobEventsMove(l: Ledger, e: Event)
    requires SchedulesValid(l) && (e.Updating? || e.Changing? || e.Deleting?)
    ensures FramesMove(l, Apply(l, e))
  {
    SameFramesMove(l, l);
    if e.id in l.jobs {
      hide InvalidateStale;
      hide Redact;
      hide Editable;
      hide FramesMove;
      match e
      case Updating(_, id, edit, _, now) => BumpMoves(l, id, EditedJob(l.jobs[id], edit, now), now);
      case Changing(_, id, _, status, now) => BumpRedactMoves(l, id, ChangedJob(l.jobs[id], status, now), now);
      case Deleting(_, id, _, now) => BumpRedactMoves(l, id, DeletedJob(l.jobs[id]), now);
    }
  }

  lemma {:induction false} ClaimPendingFrames(l: Ledger, scan: seq<Id>, now: int, until: int, token: Id)
    requires SchedulesValid(l)
    ensures After(l, ClaimPending(l, scan, now, until, token)).deliveries == l.deliveries
    decreases |scan|
  {
    hide WillEnd;
    hide Permits;
    if scan != [] && Claimable(l, scan[0], now) && l.runs[scan[0]].job in l.jobs {
      var l1 := SetRun(l, scan[0], l.runs[scan[0]].(status := Invalidated, leaseUntil := None));
      ClaimPendingFrames(l1, scan[1..], now, until, token);
    }
  }

  lemma OwedFrames(l: Ledger, job: Id, now: int)
    requires job in l.jobs && WellFormed(l.jobs[job].schedule) && l.jobs[job].status == Active
    ensures var o := WhatIsOwed(l, job, now);
      o.OwedRaised? || (o.ledger.deliveries == l.deliveries && job in o.ledger.jobs && o.ledger.jobs[job].schedule == l.jobs[job].schedule)
  {
    OwedRows(l, job, now);
    hide WhatIsOwed;
    hide WellFormed;
  }

  lemma {:induction false} ClaimJobsFrames(l: Ledger, scan: seq<Id>, now: int, until: int, id: Id, token: Id)
    requires SchedulesValid(l) && Inv(l)
    ensures After(l, ClaimJobs(l, scan, now, until, id, token)).deliveries == l.deliveries
    decreases |scan|
  {
    hide WhatIsOwed;
    hide ActiveRun;
    hide StartRun;
    if scan != [] && scan[0] in l.jobs && l.jobs[scan[0]].status == Active {
      if ActiveRun(l, scan[0]) {
        ClaimJobsFrames(l, scan[1..], now, until, id, token);
      } else {
        OwedKeeps(l, scan[0], now);
        OwedFrames(l, scan[0], now);
        hide WellFormed;
        hide Inv;
        match WhatIsOwed(l, scan[0], now)
        case OwedRaised =>
        case Nothing(l') => ClaimJobsFrames(l', scan[1..], now, until, id, token);
        case Owed(l', due, trigger) => StartRunRows(l', scan[0], due, trigger, now, until, id, token);
      }
    }
  }

  lemma ClaimDueRunFrames(l: Ledger, pending: seq<Id>, active: seq<Id>, now: int, until: int, id: Id, token: Id)
    requires SchedulesValid(l) && Inv(l)
    ensures After(l, ClaimDueRun(l, pending, active, now, until, id, token)).deliveries == l.deliveries
  {
    var l' := After(l, ClaimPending(l, pending, now, until, token));
    ClaimPendingFrames(l, pending, now, until, token);
    ClaimPendingQuiet(l, pending, now, until, token);
    QuietKeeps(l, l');
    hide Inv;
    hide Quiet;
    hide ClaimPending;
    hide ClaimJobs;
    if SchedulesValid(l') {
      ClaimJobsFrames(l', active, now, until, id, token);
    }
  }

  lemma RunFinishedMoves(l: Ledger, l': Ledger, run: Id)
    requires RunFinished(l, l', run)
    ensures FramesMove(l, l')
  {
  }

  lemma RunEventsMove(l: Ledger, e: Event)
    requires SchedulesValid(l) && Inv(l) && (e.Completing? || e.Failing?)
    ensures FramesMove(l, Apply(l, e))
  {
    SameFramesMove(l, l);
    hide FramesMove;
    match e {
      case Completing(run, token, outcome, frames, now) =>
        CompleteRunFinishes(l, run, token, outcome, frames, now);
        hide CompleteRun;
        hide Inv;
        hide CountMoves;
        var s := CompleteRun(l, run, token, outcome, frames, now);
        if s.Committed? && s.value {
          RunFinishedMoves(l, s.ledger, run);
        }
      case Failing(run, token, now) => FailRunMoves(l, run, token, now);
    }
  }

  lemma FailRunMoves(l: Ledger, run: Id, token: Id, now: int)
    requires SchedulesValid(l) && Inv(l)
    ensures FramesMove(l, After(l, FailRun(l, run, token, now)))
  {
    SameFramesMove(l, l);
    hide FramesMove;
    FailRunShape(l, run, token, now);
    if Holds(l, run, token, true) && l.runs[run].attempts + 1 < MAX_RUN_ATTEMPTS {
      FailRunRetries(l, run, token, now);
      SameFramesMove(l, SetRun(l, run, RetriedRun(l.runs[run], now)));
      hide FailRun;
    } else {
      hide Inv;
      hide CountMoves;
      hide Quiet;
      var s := FailRun(l, run, token, now);
      if s.Committed? && s.value {
        FailRunHeld(l, run, token, now);
        hide FailRun;
        RunFinishedMoves(l, s.ledger, run);
      }
    }
  }

  lemma OtherEventsMove(l: Ledger, e: Event)
    requires SchedulesValid(l) && Inv(l) && !WorkerCall(e)
    ensures FramesMove(l, Apply(l, e))
  {
    SameFramesMove(l, l);
    hide FramesMove;
    if e.Updating? || e.Changing? || e.Deleting? {
      JobEventsMove(l, e);
    } else if e.Completing? || e.Failing? {
      RunEventsMove(l, e);
    } else if e.ClaimingRun? {
      ClaimDueRunFrames(l, e.pending, e.active, e.now, e.until, e.run, e.token);
      hide ClaimDueRun;
      SameFramesMove(l, Apply(l, e));
    } else if e.Recovering? {
      RecoverMoves(l, e.runs, e.jobs, e.now, e.pace);
      hide Recover;
    } else if e.Redacting? {
      RedactMoves(l, e.id);
      hide Redact;
    } else {
      RowEventsMove(l, e);
    }
  }

  lemma RowEventsMove(l: Ledger, e: Event)
    requires SchedulesValid(l) && (e.Creating? || e.RequestingRun? || e.Renewing? || e.Beginning? || e.Deferring?)
    ensures FramesMove(l, Apply(l, e))
  {
    hide ActiveRun;
    hide KeyTaken;
    hide ValidJob;
    hide Permits;
    assert Apply(l, e).deliveries == l.deliveries;
    hide Apply;
    SameFramesMove(l, Apply(l, e));
  }

  // ----- Each step of the protocol -----

  lemma LedgerMoves(w: World, l: Ledger)
    requires Protocol(w) && FramesMove(w.ledger, l)
    ensures Protocol(w.(ledger := l))
  {
    var w' := w.(ledger := l);
    assert forall f | f in w.ledger.deliveries :: f in l.deliveries && FrameStep(w.ledger.deliveries[f], l.deliveries[f]);
    assert forall t :: Live(w', t) == Live(w, t);
    assert Holding(w') && OneLive(w') && AdmittedMaySend(w') && LogSafe(w') by {
      hide AllRejected;
      hide OnlyLastMayReach;
    }
    forall f | f in l.deliveries ensures Accounted(w', f, l.deliveries[f]) {
      hide AllRejected;
      if f in w.ledger.deliveries {
        assert Accounted(w, f, w.ledger.deliveries[f]) && FrameStep(w.ledger.deliveries[f], l.deliveries[f]);
      } else {
        assert SendsOf(w.log, f) == [];
        NothingRejected();
      }
    }
  }

  lemma NothingRejected()
    ensures AllRejected([])
  {
  }

  lemma EarlierStays(l: Ledger, l': Ledger, f: Frame)
    requires Refs(l) && Grows(l, l') && f in l.deliveries && EarlierDone(l, f)
    ensures EarlierDone(l', f)
  {
    forall k: nat | k < f.sequence && Frame(f.run, k) in l'.deliveries ensures !FrameOpen(l'.deliveries[Frame(f.run, k)].status) {
      var g := Frame(f.run, k);
      assert g !in l.deliveries ==> MayGetFrames(l, g.run);
      assert FrameGrows(l.deliveries[g], l'.deliveries[g]);
    }
  }

  lemma ClaimStep(w: World, f: Frame, row: Delivery, token: Id)
    requires Protocol(w) && token !in w.workers && f in w.ledger.deliveries && Waiting(w.ledger.deliveries[f].status)
    requires row.status == Leased && row.attempts == w.ledger.deliveries[f].attempts + 1
    ensures Protocol(World(SetFrame(w.ledger, f, row), w.workers[token := Attempt(f, Claimed)], w.log))
  {
    hide AllRejected;
    hide OnlyLastMayReach;
    var w' := World(SetFrame(w.ledger, f, row), w.workers[token := Attempt(f, Claimed)], w.log);
    assert forall t :: Live(w', t) == Live(w, t);
    assert !exists t :: Live(w, t) && w.workers[t].frame == f;
    assert Accounted(w, f, w.ledger.deliveries[f]);
    forall g | g in w'.ledger.deliveries ensures Accounted(w', g, w'.ledger.deliveries[g]) {
      assert Accounted(w, g, w.ledger.deliveries[g]);
    }
    hide Accounted;
  }

  lemma RetireStep(w: World, token: Id)
    requires Protocol(w) && token in w.workers
    requires var f := w.workers[token].frame; !Live(w, token) || f !in w.ledger.deliveries || w.ledger.deliveries[f].status != Sending || w.ledger.deliveries[f].token != Some(token)
    ensures Protocol(Moved(w, w.ledger, token, Done))
  {
    hide AllRejected;
    hide OnlyLastMayReach;
    var w' := Moved(w, w.ledger, token, Done);
    assert forall t :: Live(w', t) == (Live(w, t) && t != token);
    forall g | g in w'.ledger.deliveries ensures Accounted(w', g, w'.ledger.deliveries[g]) {
      assert Accounted(w, g, w.ledger.deliveries[g]);
    }
    hide Accounted;
  }

  lemma AdmitStep(w: World, token: Id, row: Delivery)
    requires Protocol(w) && InPhase(w, token, Claimed) && w.workers[token].frame in w.ledger.deliveries
    requires var d := w.ledger.deliveries[w.workers[token].frame];
      d.status == Leased && row.status == Sending && row.token == Some(token) && row.attempts == d.attempts
    ensures Protocol(Moved(w, SetFrame(w.ledger, w.workers[token].frame, row), token, Admitted))
  {
    hide AllRejected;
    hide OnlyLastMayReach;
    var f := w.workers[token].frame;
    var w' := Moved(w, SetFrame(w.ledger, f, row), token, Admitted);
    assert forall t :: Live(w', t) == (Live(w, t) || t == token);
    assert forall t | Live(w, t) :: w.workers[t].frame != f;
    assert Accounted(w, f, w.ledger.deliveries[f]);
    assert AdmittedMaySend(w') && Holding(w') && OneLive(w') && LogSafe(w') by {
      hide AllAccounted;
    }
    forall g | g in w'.ledger.deliveries ensures Accounted(w', g, w'.ledger.deliveries[g]) {
      assert Accounted(w, g, w.ledger.deliveries[g]);
    }
    hide Accounted;
  }

  lemma SendsOfAppend(log: seq<Send>, s: Send, f: Frame)
    ensures SendsOf(log + [s], f) == SendsOf(log, f) + if s.frame == f then [s.result] else []
  {
    assert (log + [s])[..|log|] == log;
  }

  lemma OneMoreSend(s: seq<SendResult>, r: SendResult)
    requires AllRejected(s)
    ensures OnlyLastMayReach(s + [r]) && (r == Rejected ==> AllRejected(s + [r]))
  {
    assert (s + [r])[..|s|] == s;
  }

  lemma SendStep(w: World, token: Id, result: SendResult)
    requires Protocol(w) && InPhase(w, token, Admitted) && w.workers[token].frame in w.ledger.deliveries
    ensures Protocol(Moved(w, w.ledger, token, Sent(result)).(log := w.log + [Send(w.workers[token].frame, result)]))
  {
    var f := w.workers[token].frame;
    var w' := Moved(w, w.ledger, token, Sent(result)).(log := w.log + [Send(f, result)]);
    forall g ensures SendsOf(w'.log, g) == SendsOf(w.log, g) + if g == f then [result] else [] {
      SendsOfAppend(w.log, Send(f, result), g);
    }
    hide SendsOf;
    OneMoreSend(SendsOf(w.log, f), result);
    hide AllRejected;
    hide OnlyLastMayReach;
    assert forall t :: Live(w', t) == Live(w, t);
    assert Live(w, token);
    SendAccounted(w, w', token, result);
    hide AllAccounted;
    assert Holding(w') && OneLive(w');
    assert LogSafe(w');
    assert AdmittedMaySend(w') by {
      assert forall t | InPhase(w', t, Admitted) :: InPhase(w, t, Admitted) && Live(w, t) && w.workers[t].frame != f;
    }
  }

  lemma SendAccounted(w: World, w': World, token: Id, result: SendResult)
    requires Holding(w) && OneLive(w) && AllAccounted(w) && InPhase(w, token, Admitted) && AllRejected(SendsOf(w.log, w.workers[token].frame))
    requires w'.ledger == w.ledger && w'.workers == w.workers[token := w.workers[token].(phase := Sent(result))]
    requires forall g :: SendsOf(w'.log, g) == SendsOf(w.log, g) + if g == w.workers[token].frame then [result] else []
    ensures AllAccounted(w')
  {
    hide SendsOf;
    var f := w.workers[token].frame;
    OneMoreSend(SendsOf(w.log, f), result);
    hide AllRejected;
    hide OnlyLastMayReach;
    assert Live(w, token);
    forall g | g in w'.ledger.deliveries ensures Accounted(w', g, w'.ledger.deliveries[g]) {
      assert Accounted(w, g, w.ledger.deliveries[g]);
    }
  }

  /** What a report makes of the row it still holds. */
  ghost predicate ReportedRow(d: Delivery, row: Delivery, result: SendResult) {
    if FrameOpen(row.status) then result == Rejected && row == d.(status := RetryWait, availableAt := row.availableAt, leaseUntil := None, updatedAt := row.updatedAt) && d.attempts < MAX_DELIVERY_ATTEMPTS
    else true
  }

  lemma ReportStep(w: World, token: Id, row: Delivery)
    requires Protocol(w) && token in w.workers && w.workers[token].phase.Sent? && w.workers[token].frame in w.ledger.deliveries
    requires var d := w.ledger.deliveries[w.workers[token].frame];
      d.status == Sending && d.token == Some(token) && ReportedRow(d, row, w.workers[token].phase.result)
    ensures Protocol(Moved(w, SetFrame(w.ledger, w.workers[token].frame, row), token, Done))
  {
    hide AllRejected;
    hide OnlyLastMayReach;
    var f := w.workers[token].frame;
    var w' := Moved(w, SetFrame(w.ledger, f, row), token, Done);
    assert forall t :: Live(w', t) == (Live(w, t) && t != token);
    assert Live(w, token);
    assert Accounted(w, f, w.ledger.deliveries[f]);
    assert Holding(w') && OneLive(w') && AdmittedMaySend(w') && LogSafe(w') by {
      hide AllAccounted;
    }
    forall g | g in w'.ledger.deliveries ensures Accounted(w', g, w'.ledger.deliveries[g]) {
      assert Accounted(w, g, w.ledger.deliveries[g]);
    }
    hide Accounted;
  }

  lemma ReportMoves(l: Ledger, f: Frame, token: Id, result: SendResult, now: int, pace: nat) returns (row: Delivery)
    requires HoldsFrame(l, f, token, Sending)
    ensures ReportedRow(l.deliveries[f], row, result)
    ensures FramesMove(SetFrame(l, f, row), After(l, Report(l, f, token, result, now, pace)))
  {
    hide Redact;
    hide PaceFrame;
    hide PaceFirst;
    hide FramesMove;
    hide PowerOfTwo;
    var d := l.deliveries[f];
    var job := l.runs[f.run].job;
    if result == Rejected {
      var backoff := Later(now, PowerOfTwo(if d.attempts > 0 then d.attempts - 1 else 0));
      var spent := d.attempts >= MAX_DELIVERY_ATTEMPTS;
      row := d.(status := if spent then Exhausted else RetryWait, availableAt := backoff, leaseUntil := None, updatedAt := now);
      var l1 := SetFrame(l, f, row);
      if spent {
        RedactMoves(PaceFirst(l1, f.run, now, pace), job);
        PaceFirstMoves(l1, f.run, now, pace);
        FramesMoveTrans(l1, PaceFirst(l1, f.run, now, pace), Redact(PaceFirst(l1, f.run, now, pace), job));
      } else {
        SameFramesMove(l1, l1);
      }
    } else {
      row := d.(status := if result == Accepted then Delivered else Unknown, leaseUntil := None, updatedAt := now);
      var l1 := SetFrame(l, f, row);
      var l2 := PaceFrame(l1, Frame(f.run, f.sequence + 1), now, pace);
      RedactMoves(l2, job);
      PaceFrameMoves(l1, Frame(f.run, f.sequence + 1), now, pace);
      FramesMoveTrans(l1, l2, Redact(l2, job));
    }
  }

  // ----- Every move -----

  lemma ClaimsSafe(w: World, picks: seq<Frame>, now: int, until: int, token: Id)
    requires SchedulesValid(w.ledger) && LiveFrames(w.ledger) && Protocol(w)
    ensures Protocol(Next(w, Claims(picks, now, until, token)))
  {
    hide Protocol;
    var l := w.ledger;
    if token !in w.workers && picks != [] && Eligible(l, picks[0], now) {
      DeliveryClaimNeverSuppresses(l, picks, now, until, token);
      hide ClaimDelivery;
      hide LiveFrames;
      ClaimStep(w, picks[0], LeasedFrame(l.deliveries[picks[0]], now, until, token), token);
    }
  }

  lemma AdmitsSafe(w: World, token: Id, now: int)
    requires SchedulesValid(w.ledger) && Protocol(w)
    ensures Protocol(Next(w, Admits(token, now)))
  {
    hide Protocol;
    hide Admissible;
    if InPhase(w, token, Claimed) {
      var l, f := w.ledger, w.workers[token].frame;
      if AdmitDelivery(l, f, token, now).value {
        AdmitStep(w, token, l.deliveries[f].(status := Sending, updatedAt := now));
      } else {
        RetireStep(w, token);
      }
    }
  }

  lemma SendsSafe(w: World, token: Id, result: SendResult)
    requires SchedulesValid(w.ledger) && Ordered(w) && Protocol(w)
    ensures Protocol(Next(w, Sends(token, result)))
  {
    hide Protocol;
    hide EarlierDone;
    if InPhase(w, token, Admitted) {
      SendStep(w, token, result);
    }
  }

  lemma ReportsHeld(w: World, token: Id, now: int, pace: nat)
    requires SchedulesValid(w.ledger) && Protocol(w) && token in w.workers && w.workers[token].phase.Sent?
    requires HoldsFrame(w.ledger, w.workers[token].frame, token, Sending)
    ensures Protocol(Next(w, Reports(token, now, pace)))
  {
    var l, f, result := w.ledger, w.workers[token].frame, w.workers[token].phase.result;
    var row := ReportMoves(l, f, token, result, now, pace);
    hide Report;
    hide ReportedRow;
    hide Protocol;
    hide FramesMove;
    ReportStep(w, token, row);
    LedgerMoves(Moved(w, SetFrame(l, f, row), token, Done), After(l, Report(l, f, token, result, now, pace)));
  }

  lemma ReportsNothing(w: World, token: Id, now: int, pace: nat)
    requires SchedulesValid(w.ledger) && Refs(w.ledger) && Protocol(w) && token in w.workers && w.workers[token].phase.Sent?
    requires !HoldsFrame(w.ledger, w.workers[token].frame, token, Sending)
    ensures Protocol(Next(w, Reports(token, now, pace)))
  {
    RetireStep(w, token);
    hide Protocol;
    hide Redact;
    hide PaceFirst;
    hide PaceFrame;
  }

  function ReportEvent(f: Frame, token: Id, result: SendResult, now: int, pace: nat): Event {
    match result
    case Accepted => Finishing(f, token, Delivered, now, pace)
    case Uncertain => Finishing(f, token, Unknown, now, pace)
    case Rejected => FailingDelivery(f, token, now, pace)
  }

  lemma ReportsSafe(w: World, token: Id, now: int, pace: nat)
    requires SchedulesValid(w.ledger) && Refs(w.ledger) && Protocol(w)
    ensures Protocol(Next(w, Reports(token, now, pace)))
  {
    hide Protocol;
    hide Refs;
    hide Report;
    if token in w.workers && w.workers[token].phase.Sent? {
      if HoldsFrame(w.ledger, w.workers[token].frame, token, Sending) {
        ReportsHeld(w, token, now, pace);
      } else {
        ReportsNothing(w, token, now, pace);
      }
    }
  }

  lemma OtherSafe(w: World, e: Event)
    requires SchedulesValid(w.ledger) && Inv(w.ledger) && Protocol(w)
    ensures Protocol(Next(w, Other(e)))
  {
    hide Protocol;
    hide Apply;
    hide Inv;
    hide FramesMove;
    if !WorkerCall(e) {
      OtherEventsMove(w.ledger, e);
      LedgerMoves(w, Apply(w.ledger, e));
    }
  }

  /** The ledger moves by store calls only. */
  function CallOf(w: World, m: Move): Option<Event> {
    match m
    case Claims(picks, now, until, token) => if token in w.workers then None else Some(ClaimingDelivery(picks, now, until, token))
    case Admits(token, now) => if InPhase(w, token, Claimed) then Some(Admitting(w.workers[token].frame, token, now)) else None
    case Sends(_, _) => None
    case Reports(token, now, pace) =>
      if token in w.workers && w.workers[token].phase.Sent? then Some(ReportEvent(w.workers[token].frame, token, w.workers[token].phase.result, now, pace)) else None
    case Other(e) => if WorkerCall(e) then None else Some(e)
  }

  lemma NextLedger(w: World, m: Move)
    requires SchedulesValid(w.ledger)
    ensures Next(w, m).ledger == if CallOf(w, m).Some? then Apply(w.ledger, CallOf(w, m).value) else w.ledger
  {
    hide ClaimDelivery;
    hide AdmitDelivery;
    hide FinishDelivery;
    hide FailDelivery;
    if m.Other? {
      hide Apply;
    }
  }

  lemma NextWorkers(w: World, m: Move)
    requires SchedulesValid(w.ledger) && LiveFrames(w.ledger)
    ensures forall t | t in Next(w, m).workers ::
      || (t in w.workers && Next(w, m).workers[t].frame == w.workers[t].frame)
      || (m.Claims? && m.picks != [] && Eligible(w.ledger, m.picks[0], m.now) && Next(w, m).workers[t].frame == m.picks[0])
  {
    hide AdmitDelivery;
    hide Report;
    hide Apply;
    if m.Claims? && m.picks != [] && Eligible(w.ledger, m.picks[0], m.now) {
      DeliveryClaimNeverSuppresses(w.ledger, m.picks, m.now, m.until, m.token);
      hide ClaimDelivery;
      hide LiveFrames;
      hide Eligible;
    }
  }

  lemma NextGrows(w: World, m: Move)
    requires SchedulesValid(w.ledger) && Inv(w.ledger)
    ensures Inv(Next(w, m).ledger) && Grows(w.ledger, Next(w, m).ledger)
  {
    hide *;
    NextLedger(w, m);
    GrowsRefl(w.ledger);
    if CallOf(w, m).Some? {
      ApplyKeeps(w.ledger, CallOf(w, m).value);
      ApplyGrows(w.ledger, CallOf(w, m).value);
    }
  }

  lemma NextOrdered(w: World, m: Move)
    requires SchedulesValid(w.ledger) && Inv(w.ledger) && Ordered(w)
    ensures Ordered(Next(w, m))
  {
    NextWorkers(w, m);
    NextGrows(w, m);
    assert Refs(w.ledger);
    var w' := Next(w, m);
    hide Next;
    hide Inv;
    hide Refs;
    forall t | t in w'.workers ensures w'.workers[t].frame in w'.ledger.deliveries && EarlierDone(w'.ledger, w'.workers[t].frame) {
      var f := w'.workers[t].frame;
      assert f in w.ledger.deliveries && EarlierDone(w.ledger, f);
      EarlierStays(w.ledger, w'.ledger, f);
      assert FramesGrow(w.ledger, w'.ledger);
    }
  }

  /** Every move of a worker, of recovery and of any other store call keeps the protocol safe. */
  lemma NextSafe(w: World, m: Move)
    requires SchedulesValid(w.ledger) && Safe(w)
    ensures Safe(Next(w, m))
  {
    NextGrows(w, m);
    NextOrdered(w, m);
    assert LiveFrames(w.ledger) && Refs(w.ledger);
    hide LiveFrames;
    hide Refs;
    hide Next;
    hide Inv;
    hide Protocol;
    hide Ordered;
    hide Grows;
    match m
    case Claims(picks, now, until, token) => ClaimsSafe(w, picks, now, until, token);
    case Admits(token, now) => AdmitsSafe(w, token, now);
    case Sends(token, result) => SendsSafe(w, token, result);
    case Reports(token, now, pace) => ReportsSafe(w, token, now, pace);
    case Other(e) => OtherSafe(w, e);
  }

  ghost function Unfold(w: World, moves: seq<Move>): (w': World)
    requires Safe(w)
    ensures Safe(w')
    decreases |moves|
  {
    if moves == [] then w
    else
      NextSafe(w, moves[0]);
      Unfold(Next(w, moves[0]), moves[1..])
  }

  lemma EarlierRejected(s: seq<SendResult>)
    requires OnlyLastMayReach(s)
    ensures forall i | 0 <= i < |s| - 1 :: s[i] == Rejected
  {
    forall i | 0 <= i < |s| - 1 ensures s[i] == Rejected {
      assert s[..|s| - 1][i] == Rejected;
    }
  }

  /** In every interleaving of claims, admissions, sends, crashes, reports, recovery and other store calls, each
      delivery is sent at most five times, and every send but its last was rejected: it is accepted at most once
      and never sent again after an accepted or uncertain send. */
  lemma SendsAreSafe(moves: seq<Move>, f: Frame)
    ensures Safe(START)
    ensures var s := SendsOf(Unfold(START, moves).log, f);
      |s| <= MAX_DELIVERY_ATTEMPTS && forall i | 0 <= i < |s| - 1 :: s[i] == Rejected
  {
    StartSafe();
    var s := SendsOf(Unfold(START, moves).log, f);
    hide Unfold;
    hide SendsOf;
    assert OnlyLastMayReach(s);
    EarlierRejected(s);
  }

  lemma StartSafe()
    ensures Safe(START)
  {
    assert Inv(EMPTY);
  }

  /** Whenever the connector is called, every earlier delivery of the same run is finished, and nothing sent for
      this one before has been accepted or left uncertain. */
  lemma SendsGoOutInOrder(moves: seq<Move>, token: Id)
    ensures Safe(START)
    ensures var w := Unfold(START, moves);
      InPhase(w, token, Admitted) ==>
        && EarlierDone(w.ledger, w.workers[token].frame)
        && forall i | 0 <= i < |SendsOf(w.log, w.workers[token].frame)| :: SendsOf(w.log, w.workers[token].frame)[i] == Rejected
  {
    StartSafe();
    hide Unfold;
    hide SendsOf;
    hide EarlierDone;
  }
}
