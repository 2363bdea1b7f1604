/** Whole histories of the cron ledger: any sequence of store calls, from an empty ledger. */
module CronHistory {
  import opened Wrappers
  import opened CronSchedule
  import opened CronLedger
  import opened CronInvariant
  import opened CronTransitions

  /** One store call, with everything it gets from its caller and its environment. */
  datatype Event =
    | Creating(id: Id, job: Job, now: int)
    | Updating(owner: Id, id: Id, edit: Job, expected: nat, now: int)
    | Changing(owner: Id, id: Id, expected: nat, status: JobStatus, now: int)
    | Deleting(owner: Id, id: Id, expected: nat, now: int)
    | RequestingRun(owner: Id, id: Id, revision: Option<nat>, run: Id, now: int)
    | ClaimingRun(pending: seq<Id>, active: seq<Id>, now: int, until: int, run: Id, token: Id)
    | Renewing(run: Id, token: Id, until: int)
    | Beginning(run: Id, token: Id, until: int)
    | Deferring(run: Id, token: Id, delay: int, now: int)
    | Completing(run: Id, token: Id, outcome: RunOutcome, frames: seq<string>, now: int)
    | Failing(run: Id, token: Id, now: int)
    | ClaimingDelivery(picks: seq<Frame>, now: int, until: int, token: Id)
    | Admitting(frame: Frame, token: Id, now: int)
    | Finishing(frame: Frame, token: Id, result: DeliveryStatus, now: int, pace: nat)
    | FailingDelivery(frame: Frame, token: Id, now: int, pace: nat)
    | Recovering(runs: seq<Id>, jobs: seq<Id>, now: int, pace: nat)
    | Redacting(owner: Id, id: Id)

  function Apply(l: Ledger, e: Event): Ledger
    requires SchedulesValid(l)
  {
    match e
    case Creating(id, job, now) => After(l, Create(l, id, job, now))
    case Updating(owner, id, edit, expected, now) => After(l, Update(l, owner, id, edit, expected, now))
    case Changing(owner, id, expected, status, now) =>
      if status == Ended then l else After(l, ChangeStatus(l, owner, id, expected, status, now))
    case Deleting(owner, id, expected, now) => After(l, Delete(l, owner, id, expected, now))
    case RequestingRun(owner, id, revision, run, now) => After(l, RequestManualRun(l, owner, id, revision, run, now))
    case ClaimingRun(pending, active, now, until, run, token) => After(l, ClaimDueRun(l, pending, active, now, until, run, token))
    case Renewing(run, token, until) => After(l, RenewRunLease(l, run, token, until))
    case Beginning(run, token, until) => After(l, BeginRun(l, run, token, until))
    case Deferring(run, token, delay, now) => After(l, DeferRun(l, run, token, delay, now))
    case Completing(run, token, outcome, frames, now) => After(l, CompleteRun(l, run, token, outcome, frames, now))
    case Failing(run, token, now) => After(l, FailRun(l, run, token, now))
    case ClaimingDelivery(picks, now, until, token) => After(l, ClaimDelivery(l, picks, now, until, token))
    case Admitting(f, token, now) => After(l, AdmitDelivery(l, f, token, now))
    case Finishing(f, token, result, now, pace) =>
      if FrameOpen(result) then l else After(l, FinishDelivery(l, f, token, result, now, pace))
    case FailingDelivery(f, token, now, pace) => After(l, FailDelivery(l, f, token, now, pace))
    case Recovering(runs, jobs, now, pace) => After(l, Recover(l, runs, jobs, now, pace))
    case Redacting(owner, id) => if id in l.jobs && l.jobs[id].owner == owner then Redact(l, id) else l
  }

  /** The calls that start no work. */
  predicate QuietEvent(e: Event) {
    e.Renewing? || e.Beginning? || e.Deferring? || e.ClaimingDelivery? || e.Admitting? || e.Finishing?
    || e.FailingDelivery? || e.Recovering? || e.Redacting?
  }

  lemma QuietEvents(l: Ledger, e: Event)
    requires SchedulesValid(l) && QuietEvent(e)
    ensures Quiet(l, Apply(l, e))
  {
    QuietRefl(l);
    match e
    case ClaimingDelivery(picks, now, until, token) => ClaimDeliveryQuiet(l, picks, now, until, token);
    case Finishing(f, token, result, now, pace) => FinishDeliveryQuiet(l, f, token, result, now, pace);
    case FailingDelivery(f, token, now, pace) => FailDeliveryQuiet(l, f, token, now, pace);
    case Recovering(runs, jobs, now, pace) => RecoverQuiet(l, runs, jobs, now, pace);
    case Redacting(_, id) => RedactQuiet(l, id);
    case Admitting(f, token, now) =>
      if HoldsFrame(l, f, token, Leased) {
        SetFrameQuiet(l, f, l.deliveries[f].(status := Sending, updatedAt := now));
      }
    case _ => LeaseEvents(l, e);
  }

  lemma LeaseEvents(l: Ledger, e: Event)
    requires SchedulesValid(l) && (e.Renewing? || e.Beginning? || e.Deferring?)
    ensures Quiet(l, Apply(l, e))
  {
    QuietRefl(l);
    if Holds(l, e.run, e.token, true) {
      var row := l.runs[e.run];
      match e
      case Renewing(run, _, until) => SetRunQuiet(l, run, row.(leaseUntil := Some(until)));
      case Beginning(run, _, until) => SetRunQuiet(l, run, row.(status := Executing, leaseUntil := Some(until)));
      case Deferring(run, _, delay, now) =>
        SetRunQuiet(l, run, row.(status := RunRetryWait, availableAt := Later(now, delay), leaseUntil := None));
    }
    hide Quiet;
    hide Permits;
  }

  /** Every store call keeps the invariant. */
  lemma ApplyKeeps(l: Ledger, e: Event)
    requires SchedulesValid(l) && Inv(l)
    ensures Inv(Apply(l, e))
  {
    hide Inv;
    if QuietEvent(e) {
      QuietEvents(l, e);
      hide Apply;
      QuietKeeps(l, Apply(l, e));
    } else {
      WorkEventsKeep(l, e);
    }
  }

  lemma WorkEventsKeep(l: Ledger, e: Event)
    requires SchedulesValid(l) && Inv(l) && !QuietEvent(e)
    ensures Inv(Apply(l, e))
  {
    hide Inv;
    hide Create;
    hide Update;
    hide ChangeStatus;
    hide Delete;
    hide RequestManualRun;
    hide ClaimDueRun;
    hide CompleteRun;
    hide FailRun;
    match e
    case Creating(id, job, now) => CreateKeeps(l, id, job, now);
    case Updating(owner, id, edit, expected, now) => UpdateKeeps(l, owner, id, edit, expected, now);
    case Changing(owner, id, expected, status, now) => ChangeStatusKeeps(l, owner, id, expected, status, now);
    case Deleting(owner, id, expected, now) => DeleteKeeps(l, owner, id, expected, now);
    case RequestingRun(owner, id, revision, run, now) => ManualRunKeeps(l, owner, id, revision, run, now);
    case ClaimingRun(pending, active, now, until, run, token) => ClaimDueRunKeeps(l, pending, active, now, until, run, token);
    case Completing(run, token, outcome, frames, now) => CompleteRunKeeps(l, run, token, outcome, frames, now);
    case Failing(run, token, now) => FailRunKeeps(l, run, token, now);
  }

  ghost function Play(l: Ledger, events: seq<Event>): (l': Ledger)
    requires Inv(l)
    ensures Inv(l')
    decreases |events|
  {
    if events == [] then l
    else
      ApplyKeeps(l, events[0]);
      Play(Apply(l, events[0]), events[1..])
  }

  predicate Leads(l: Ledger, e: Event, l': Ledger) {
    SchedulesValid(l) && Apply(l, e) == l'
  }

  /** A history played step by step. */
  lemma {:induction false} PlayPath(l: Ledger, h: seq<Event>, path: seq<Ledger>)
    requires Inv(l) && |path| == |h| + 1 && path[0] == l && forall k | 0 <= k < |h| :: Leads(path[k], h[k], path[k + 1])
    ensures Play(l, h) == path[|h|]
    decreases |h|
  {
    hide Apply;
    hide Inv;
    if h != [] {
      assert Leads(path[0], h[0], path[1]);
      ApplyKeeps(l, h[0]);
      forall k | 0 <= k < |h| - 1 ensures Leads(path[1..][k], h[1..][k], path[1..][k + 1]) {
        assert Leads(path[k + 1], h[k + 1], path[k + 2]);
      }
      PlayPath(path[1], h[1..], path[1..]);
    }
  }

  /** A history in two parts. */
  lemma {:induction false} PlayAppend(l: Ledger, a: seq<Event>, b: seq<Event>)
    requires Inv(l)
    ensures Play(l, a + b) == Play(Play(l, a), b)
    decreases |a|
  {
    hide Apply;
    if a == [] {
      assert a + b == b;
    } else {
      ApplyKeeps(l, a[0]);
      hide Inv;
      assert (a + b)[1..] == a[1..] + b && (a + b)[0] == a[0];
      PlayAppend(Apply(l, a[0]), a[1..], b);
    }
  }

  /** In every reachable ledger each job has at most one open run, and every unfinished run or delivery
      carries the current revision of its job, whose status still permits it. */
  lemma ReachableLedgersAreSound(events: seq<Event>)
    ensures Inv(EMPTY)
    ensures var l := Play(EMPTY, events);
      && (forall a, b | Busy(l, a) && Busy(l, b) && l.runs[a].job == l.runs[b].job :: a == b)
      && (forall r | r in l.runs && RunOpen(l.runs[r].status) :: l.runs[r].job in l.jobs && Permits(l.jobs[l.runs[r].job], l.runs[r]))
      && (forall f | f in l.deliveries && FrameOpen(l.deliveries[f].status) :: !FrameStale(l, f) && Admissible(l, f))
      && (forall j | j in l.jobs :: l.jobs[j].successes == |SuccessfulRuns(l, j)|)
  {
    assert Inv(EMPTY);
  }

  // ----- The later fences never fire on live work -----

  /** The claim loop never has to invalidate a waiting run: it leases the first row it is given, or raises. */
  lemma ClaimNeverInvalidates(l: Ledger, scan: seq<Id>, now: int, until: int, token: Id)
    requires Inv(l) && scan != [] && Claimable(l, scan[0], now)
    ensures var s := ClaimPending(l, scan, now, until, token);
      s.Committed? ==> s.value == Some(scan[0]) && s.ledger == LeaseRun(l, scan[0], until, token)
  {
    assert RunOpen(l.runs[scan[0]].status);
    hide WillEnd;
    hide LeaseRun;
    hide Permits;
  }

  /** A worker that holds the lease of a run always passes its revision and status fence. */
  lemma RunFenceNeverFires(l: Ledger, run: Id, token: Id)
    requires Inv(l) && run in l.runs && l.runs[run].token == Some(token)
    ensures l.runs[run].status == RunLeased ==> Holds(l, run, token, false)
    ensures l.runs[run].status == RunLeased || l.runs[run].status == Executing ==> Holds(l, run, token, true)
  {
    hide Permits;
  }

  function LeasedFrame(d: Delivery, now: int, until: int, token: Id): Delivery {
    d.(status := Leased, attempts := d.attempts + 1, token := Some(token), leaseUntil := Some(until), updatedAt := now)
  }

  /** The delivery claim never has to suppress a row: it leases the first one it is given and changes nothing else, or
      raises, exactly when that row has no destination. */
  lemma DeliveryClaimNeverSuppresses(l: Ledger, picks: seq<Frame>, now: int, until: int, token: Id)
    requires LiveFrames(l) && picks != [] && Eligible(l, picks[0], now)
    ensures ClaimDelivery(l, picks, now, until, token) ==
      if l.deliveries[picks[0]].destination.None? then Aborted
      else Committed(SetFrame(l, picks[0], LeasedFrame(l.deliveries[picks[0]], now, until, token)), Some(picks[0]))
  {
    assert FrameOpen(l.deliveries[picks[0]].status);
    hide FrameStale;
  }

  /** The fence before a connector send only ever depends on the lease. */
  lemma AdmissionFenceNeverFires(l: Ledger, f: Frame, token: Id, now: int)
    requires Inv(l)
    ensures AdmitDelivery(l, f, token, now).value <==> HoldsFrame(l, f, token, Leased)
  {
    assert HoldsFrame(l, f, token, Leased) ==> FrameOpen(l.deliveries[f].status);
  }

  /** A new delivery of a run: its text, waiting from now on, never tried, not leased, for the revision of the run, and
      to the destination of the job, which is gone exactly when the content of the job is. */
  ghost predicate CarriesText(l: Ledger, l': Ledger, run: Id, f: Frame, text: string, now: int)
    requires run in l.runs && l.runs[run].job in l.jobs
  {
    && f in l'.deliveries && var d := l'.deliveries[f]; var content := l.jobs[l.runs[run].job].content;
    && d.output == Some(text) && d.status.Pending? && d.attempts == 0 && d.availableAt == now && d.updatedAt == now
    && d.token.None? && d.leaseUntil.None? && d.jobRevision == l.runs[run].revision
    && (content.Redacted? ==> d.destination.None?) && (content.Content? ==> d.destination == Some(content.destination))
  }

  /** Finishing a run never collides with deliveries it already has: it raises only on bad frames or a failed search. */
  lemma CompletionCreatesFrames(l: Ledger, run: Id, token: Id, outcome: RunOutcome, frames: seq<string>, now: int)
    requires Inv(l) && Holds(l, run, token, true) && ValidFrames(frames)
    requires NextOccurrence(l.jobs[l.runs[run].job].schedule, l.runs[run].scheduledFor).Ok?
    ensures var s := CompleteRun(l, run, token, outcome, frames, now);
      && s.Committed? && s.value
      && (forall f: Frame | f.run == run :: f in s.ledger.deliveries <==> f.sequence < |frames|)
      && (forall f | f in l.deliveries :: f in s.ledger.deliveries && s.ledger.deliveries[f] == l.deliveries[f])
      && (forall k: nat | k < |frames| :: CarriesText(l, s.ledger, run, Frame(run, k), frames[k], now))
  {
    OpenRunHasNoFrames(l, run);
    AddFramesShape(l, run, frames, DestinationOf(l.jobs[l.runs[run].job].content), l.runs[run].revision, now);
    hide AddFrames;
    hide Inv;
    hide WellFormed;
    hide NextOccurrence;
  }
}
