/** History only grows: what is finished stays finished, and nothing is created twice. */
module CronGrowth {
  import opened Wrappers
  import opened CronSchedule
  import opened CronLedger
  import opened CronInvariant
  import opened CronTransitions
  import opened CronHistory

  /** A job keeps its schedule for as long as its revision lasts, and loses its content only once it is terminal, then for good. */
  ghost predicate JobGrows(a: Job, b: Job) {
    && a.owner == b.owner && a.revision <= b.revision && (Terminal(a.status) ==> Terminal(b.status))
    && (a.revision == b.revision ==> b.schedule == a.schedule)
    && (b.content.Redacted? ==> a.content.Redacted? || Terminal(b.status))
    && (a.content.Redacted? && Terminal(a.status) ==> b.content.Redacted?)
  }

  ghost predicate RunGrows(a: Run, b: Run) {
    && a.job == b.job && a.trigger == b.trigger && a.revision == b.revision && a.scheduledFor == b.scheduledFor
    && (RunOpen(a.status) || (b.status == a.status && b.outcome == a.outcome))
  }

  ghost predicate FrameGrows(a: Delivery, b: Delivery) {
    && a.jobRevision == b.jobRevision && a.destination == b.destination && (FrameOpen(a.status) || b.status == a.status)
    && (FrameOpen(b.status) ==> b.output == a.output)
  }

  /** A run may only appear for a job that was not terminal. */
  ghost predicate MayAppear(l: Ledger, row: Run) {
    row.job in l.jobs ==> !Terminal(l.jobs[row.job].status)
  }

  /** The search for an occurrence after this one succeeds, if the run stands for an occurrence of the job as it is. */
  ghost predicate Continues(l: Ledger, row: Run) {
    && row.job in l.jobs && row.revision <= l.jobs[row.job].revision
    && (ByOccurrence(row.trigger) && row.revision == l.jobs[row.job].revision ==> HasNext(l.jobs[row.job].schedule, row.scheduledFor))
  }

  predicate HasNext(s: ScheduleSpec, due: int) {
    WellFormed(s) && NextOccurrence(s, due).Ok?
  }

  /** Deliveries may only appear for a run that was not finished. */
  ghost predicate MayGetFrames(l: Ledger, run: Id) {
    run in l.runs ==> RunOpen(l.runs[run].status)
  }

  ghost predicate JobsGrow(l: Ledger, l': Ledger) {
    && (forall j | j in l.jobs :: j in l'.jobs && JobGrows(l.jobs[j], l'.jobs[j]))
    && (forall j | j in l'.jobs && j !in l.jobs && l'.jobs[j].content.Redacted? :: Terminal(l'.jobs[j].status))
  }

  ghost predicate RunsGrow(l: Ledger, l': Ledger) {
    && (forall r | r in l.runs :: r in l'.runs && RunGrows(l.runs[r], l'.runs[r]))
    && (forall r | r in l'.runs && r !in l.runs :: MayAppear(l, l'.runs[r]) && Continues(l', l'.runs[r]))
  }

  ghost predicate FramesGrow(l: Ledger, l': Ledger) {
    && (forall f | f in l.deliveries :: f in l'.deliveries && FrameGrows(l.deliveries[f], l'.deliveries[f]))
    && (forall f | f in l'.deliveries && f !in l.deliveries :: MayGetFrames(l, f.run))
  }

  ghost predicate Grows(l: Ledger, l': Ledger) {
    JobsGrow(l, l') && RunsGrow(l, l') && FramesGrow(l, l')
  }

  lemma GrowsRefl(l: Ledger)
    ensures Grows(l, l)
  {
  }

  lemma JobsGrowTrans(a: Ledger, b: Ledger, c: Ledger)
    requires JobsGrow(a, b) && JobsGrow(b, c)
    ensures JobsGrow(a, c)
  {
  }

  lemma ContinuesOn(l: Ledger, l': Ledger, row: Run, row': Run)
    requires Continues(l, row) && JobsGrow(l, l') && RunGrows(row, row')
    ensures Continues(l', row')
  {
    hide HasNext;
  }

  lemma RunsGrowTrans(a: Ledger, b: Ledger, c: Ledger)
    requires JobsGrow(a, b) && JobsGrow(b, c) && RunsGrow(a, b) && RunsGrow(b, c)
    ensures RunsGrow(a, c)
  {
    hide Continues;
    forall r | r in c.runs && r !in a.runs ensures MayAppear(a, c.runs[r]) && Continues(c, c.runs[r]) {
      if r in b.runs {
        assert MayAppear(a, b.runs[r]) && RunGrows(b.runs[r], c.runs[r]);
        ContinuesOn(b, c, b.runs[r], c.runs[r]);
      } else {
        assert MayAppear(b, c.runs[r]);
      }
    }
  }

  lemma FramesGrowTrans(a: Ledger, b: Ledger, c: Ledger)
    requires RunsGrow(a, b) && FramesGrow(a, b) && FramesGrow(b, c)
    ensures FramesGrow(a, c)
  {
    forall f | f in c.deliveries && f !in a.deliveries ensures MayGetFrames(a, f.run) {
      if f in b.deliveries {
        assert MayGetFrames(a, f.run);
      } else {
        assert MayGetFrames(b, f.run);
      }
    }
  }

  lemma GrowsTrans(a: Ledger, b: Ledger, c: Ledger)
    requires Grows(a, b) && Grows(b, c)
    ensures Grows(a, c)
  {
    JobsGrowTrans(a, b, c);
    RunsGrowTrans(a, b, c);
    FramesGrowTrans(a, b, c);
  }

  // ----- Each kind of transaction -----

  lemma QuietGrows(l: Ledger, l': Ledger)
    requires Quiet(l, l')
    ensures Grows(l, l')
  {
    forall j | j in l.jobs ensures JobGrows(l.jobs[j], l'.jobs[j]) {
      assert SameJob(l.jobs[j], l'.jobs[j]);
    }
    forall r | r in l.runs ensures RunGrows(l.runs[r], l'.runs[r]) {
      assert RunCalm(l.runs[r], l'.runs[r]);
    }
    forall f | f in l.deliveries ensures FrameGrows(l.deliveries[f], l'.deliveries[f]) {
      assert FrameCalm(l.deliveries[f], l'.deliveries[f]);
    }
  }

  lemma SetJobGrows(l: Ledger, id: Id, row: Job)
    requires if id in l.jobs then JobGrows(l.jobs[id], row) else !row.content.Redacted?
    ensures Grows(l, SetJob(l, id, row))
  {
  }

  lemma BumpGrows(l: Ledger, id: Id, row: Job, now: int)
    requires Inv(l) && BumpReady(l, id, row) && JobGrows(l.jobs[id], row)
    ensures Grows(l, Bump(l, id, row, now))
  {
    var l' := Bump(l, id, row, now);
    BumpRuns(l, id, row, now);
    BumpFrames(l, id, row, now);
    hide InvalidateStale;
    hide BumpReady;
    hide Inv;
    forall r | r in l.runs ensures RunGrows(l.runs[r], l'.runs[r]) {
      assert RunBumped(l.runs[r], l'.runs[r], id);
    }
    forall f | f in l.deliveries ensures FrameGrows(l.deliveries[f], l'.deliveries[f]) {
      assert FrameBumped(l, l', f, id);
    }
  }

  lemma BumpRedactGrows(l: Ledger, id: Id, row: Job, now: int)
    requires Inv(l) && BumpReady(l, id, row) && JobGrows(l.jobs[id], row)
    ensures Grows(l, Bump(l, id, row, now)) && Grows(l, Redact(Bump(l, id, row, now), id))
  {
    var l' := Bump(l, id, row, now);
    BumpGrows(l, id, row, now);
    hide Bump;
    hide Grows;
    hide Redact;
    RedactQuiet(l', id);
    QuietGrows(l', Redact(l', id));
    GrowsTrans(l, l', Redact(l', id));
  }

  lemma RunFinishedGrows(l: Ledger, l': Ledger, run: Id)
    requires RunFinished(l, l', run)
    ensures Grows(l, l')
  {
  }

  lemma CompleteRunGrows(l: Ledger, run: Id, token: Id, outcome: RunOutcome, frames: seq<string>, now: int)
    requires Inv(l) && SchedulesValid(l)
    ensures Grows(l, After(l, CompleteRun(l, run, token, outcome, frames, now)))
  {
    CompleteRunFinishes(l, run, token, outcome, frames, now);
    hide CompleteRun;
    hide Inv;
    hide CountMoves;
    GrowsRefl(l);
    var s := CompleteRun(l, run, token, outcome, frames, now);
    if s.Committed? && s.value {
      RunFinishedGrows(l, s.ledger, run);
    }
    hide Grows;
  }

  lemma FailRunGrows(l: Ledger, run: Id, token: Id, now: int)
    requires Inv(l) && SchedulesValid(l)
    ensures Grows(l, After(l, FailRun(l, run, token, now)))
  {
    FailRunShape(l, run, token, now);
    hide FailRun;
    hide Inv;
    hide Quiet;
    hide CountMoves;
    GrowsRefl(l);
    hide Grows;
    var s := FailRun(l, run, token, now);
    if s.Committed? && s.value {
      if l.runs[run].attempts + 1 < MAX_RUN_ATTEMPTS {
        QuietGrows(l, s.ledger);
      } else {
        RunFinishedGrows(l, s.ledger, run);
      }
    }
  }

  lemma AddRunGrows(l: Ledger, l1: Ledger, id: Id, row: Run)
    requires Grows(l, l1) && id !in l1.runs && MayAppear(l, row) && Continues(l1, row) && (forall f | f in l.deliveries :: f.run in l.runs)
    ensures Grows(l, SetRun(l1, id, row))
  {
    hide HasNext;
  }

  /** Inserting a run into a later state of the ledger, for a job that was not terminal to begin with. */
  lemma InsertRunGrows(l: Ledger, l1: Ledger, id: Id, job: Id, due: int, trigger: Trigger, now: int)
    requires Refs(l) && Grows(l, l1) && job in l1.jobs && job in l.jobs && !Terminal(l.jobs[job].status)
    requires ByOccurrence(trigger) ==> HasNext(l1.jobs[job].schedule, due)
    ensures Grows(l, After(l1, InsertRun(l1, id, job, due, trigger, now)))
  {
    hide KeyTaken;
    hide HasNext;
    if id !in l1.runs && !KeyTaken(l1, job, due, trigger) {
      var j := l1.jobs[job];
      var row := NewRun(j, job, due, trigger, now);
      var l2 := SetJob(l1, job, j.(lastDue := Some(due)));
      SetJobGrows(l1, job, j.(lastDue := Some(due)));
      assert id !in l2.runs && MayAppear(l, row) && Continues(l1, row) && Continues(l2, row);
      hide Continues;
      assert forall f | f in l.deliveries :: f.run in l.runs;
      hide Grows;
      hide Refs;
      hide MayAppear;
      GrowsTrans(l, l1, l2);
      AddRunGrows(l, l1, id, row);
      AddRunGrows(l, l2, id, row);
    }
  }

  lemma StartRunGrows(l: Ledger, l1: Ledger, job: Id, due: int, trigger: Trigger, now: int, until: int, id: Id, token: Id)
    requires Refs(l) && Grows(l, l1) && job in l1.jobs && WellFormed(l1.jobs[job].schedule)
    requires job in l.jobs && !Terminal(l.jobs[job].status) && (ByOccurrence(trigger) ==> HasNext(l1.jobs[job].schedule, due))
    ensures Grows(l, After(l1, StartRun(l1, job, due, trigger, now, until, id, token)))
  {
    InsertRunGrows(l, l1, id, job, due, trigger, now);
    hide Grows;
    hide Refs;
    hide WillEnd;
    hide WellFormed;
    hide KeyTaken;
    match InsertRun(l1, id, job, due, trigger, now)
    case Aborted =>
    case Committed(l2, _) =>
      LeaseRunQuiet(l2, id, until, token);
      hide LeaseRun;
      QuietGrows(l2, LeaseRun(l2, id, until, token));
      GrowsTrans(l, l2, LeaseRun(l2, id, until, token));
  }

  lemma LeaseRunQuiet(l: Ledger, run: Id, until: int, token: Id)
    requires run in l.runs && l.runs[run].status == RunPending
    ensures Quiet(l, LeaseRun(l, run, until, token))
  {
    SetRunQuiet(l, run, l.runs[run].(status := RunLeased, leaseUntil := Some(until), token := Some(token)));
  }

  /** The search past the occurrence that catching up returns has succeeded. */
  lemma {:induction false} IterateContinues(s: ScheduleSpec, from: int, now: int, latest: Option<int>)
    requires WellFormed(s) && from <= now && (latest.Some? ==> latest.value == from)
    ensures var r := Iterate(s, from, now, latest); r.Ok? && r.value.Some? ==> HasNext(s, r.value.value)
    decreases now - from
  {
    match NextOccurrence(s, from)
    case Ok(Some(t)) =>
      if t <= now {
        IterateContinues(s, t, now, Some(t));
      }
    case _ =>
  }

  lemma CatchUpContinues(s: ScheduleSpec, since: int, now: int)
    requires WellFormed(s)
    ensures var r := CatchUp(s, since, now); r.Ok? && r.value.Some? ==> HasNext(s, r.value.value)
  {
    if since <= now && !s.Interval? {
      IterateContinues(s, since, now, None);
      hide Iterate;
      hide NextOccurrence;
    }
  }

  lemma DueContinues(s: ScheduleSpec, last: Option<int>, now: int, created: int)
    requires WellFormed(s)
    ensures var r := Due(s, last, now, created); r.Ok? && r.value.Some? ==> HasNext(s, r.value.value)
  {
    CatchUpContinues(s, if last.Some? then last.value else created, now);
    hide CatchUp;
    if s.Cron? {
      hide NextOccurrence;
    }
  }

  /** An owed occurrence is never the last one the search can find. */
  lemma OwedContinues(l: Ledger, job: Id, now: int)
    requires job in l.jobs && WellFormed(l.jobs[job].schedule)
    ensures var o := WhatIsOwed(l, job, now); o.Owed? && ByOccurrence(o.trigger) ==> HasNext(l.jobs[job].schedule, o.due)
  {
    hide HasNext;
    hide Due;
    hide CatchUp;
    hide WellFormed;
    var j := l.jobs[job];
    var past := j.endsAt.Some? && now >= j.endsAt.value;
    DueContinues(j.schedule, j.lastDue, if past then j.endsAt.value - 1 else now, j.anchor);
    if !past && j.pausedAt.Some? {
      CatchUpContinues(j.schedule, j.pausedAt.value, now);
    }
  }

  lemma OwedGrows(l: Ledger, job: Id, now: int)
    requires job in l.jobs && WellFormed(l.jobs[job].schedule) && l.jobs[job].status == Active
    ensures var o := WhatIsOwed(l, job, now);
      !o.OwedRaised? ==> Grows(l, o.ledger) && job in o.ledger.jobs && o.ledger.jobs[job].schedule == l.jobs[job].schedule
                         && (o.Owed? && ByOccurrence(o.trigger) ==> HasNext(l.jobs[job].schedule, o.due))
  {
    var j := l.jobs[job];
    OwedContinues(l, job, now);
    hide HasNext;
    OwedCases(l, job, now);
    hide WhatIsOwed;
    GrowsRefl(l);
    SetJobGrows(l, job, j.(pausedAt := None));
    SetJobGrows(l, job, EndedJob(j));
    hide Grows;
    hide WellFormed;
  }

  lemma {:induction false} ClaimJobsGrows(l: Ledger, scan: seq<Id>, now: int, until: int, id: Id, token: Id)
    requires SchedulesValid(l) && Inv(l)
    ensures Grows(l, After(l, ClaimJobs(l, scan, now, until, id, token)))
    decreases |scan|
  {
    GrowsRefl(l);
    hide Grows;
    hide WhatIsOwed;
    hide ActiveRun;
    hide StartRun;
    if scan != [] && scan[0] in l.jobs && l.jobs[scan[0]].status == Active {
      if ActiveRun(l, scan[0]) {
        ClaimJobsGrows(l, scan[1..], now, until, id, token);
      } else {
        OwedKeeps(l, scan[0], now);
        OwedGrows(l, scan[0], now);
        hide WellFormed;
        hide HasNext;
        match WhatIsOwed(l, scan[0], now)
        case OwedRaised =>
        case Nothing(l') =>
          hide Inv;
          ClaimJobsGrows(l', scan[1..], now, until, id, token);
          GrowsTrans(l, l', After(l', ClaimJobs(l', scan[1..], now, until, id, token)));
        case Owed(l', due, trigger) => StartRunGrows(l, l', scan[0], due, trigger, now, until, id, token);
      }
    }
  }

  lemma ClaimPendingGrows(l: Ledger, pending: seq<Id>, now: int, until: int, token: Id)
    requires SchedulesValid(l) && Inv(l)
    ensures var l' := After(l, ClaimPending(l, pending, now, until, token)); Grows(l, l') && Inv(l') && SchedulesValid(l')
  {
    ClaimPendingQuiet(l, pending, now, until, token);
    var l' := After(l, ClaimPending(l, pending, now, until, token));
    hide ClaimPending;
    hide Inv;
    hide Quiet;
    hide Grows;
    QuietGrows(l, l');
    QuietKeeps(l, l');
    SoundSchedules(l');
  }

  lemma SoundSchedules(l: Ledger)
    requires Inv(l)
    ensures SchedulesValid(l)
  {
  }

  lemma ClaimParts(l: Ledger, pending: seq<Id>, active: seq<Id>, now: int, until: int, id: Id, token: Id)
    requires SchedulesValid(l)
    ensures var l' := After(l, ClaimPending(l, pending, now, until, token)); var r := After(l, ClaimDueRun(l, pending, active, now, until, id, token));
      r == l || r == l' || (SchedulesValid(l') && r == After(l', ClaimJobs(l', active, now, until, id, token)))
  {
    hide ClaimPending;
    hide ClaimJobs;
    hide WellFormed;
  }

  lemma ClaimDueRunGrows(l: Ledger, pending: seq<Id>, active: seq<Id>, now: int, until: int, id: Id, token: Id)
    requires SchedulesValid(l) && Inv(l)
    ensures Grows(l, After(l, ClaimDueRun(l, pending, active, now, until, id, token)))
  {
    hide *;
    ClaimParts(l, pending, active, now, until, id, token);
    GrowsRefl(l);
    ClaimPendingGrows(l, pending, now, until, token);
    var l' := After(l, ClaimPending(l, pending, now, until, token));
    ClaimJobsGrows(l', active, now, until, id, token);
    GrowsTrans(l, l', After(l', ClaimJobs(l', active, now, until, id, token)));
  }

  lemma ManualRunGrows(l: Ledger, owner: Id, job: Id, expected: Option<nat>, id: Id, now: int)
    requires Inv(l)
    ensures Grows(l, After(l, RequestManualRun(l, owner, job, expected, id, now)))
  {
    GrowsRefl(l);
    hide Grows;
    hide ActiveRun;
    hide InsertRun;
    if job in l.jobs && l.jobs[job].status == Active {
      InsertRunGrows(l, l, id, job, now, Manually, now);
    }
  }

  lemma UpdateGrows(l: Ledger, owner: Id, id: Id, edit: Job, expected: nat, now: int)
    requires Inv(l)
    ensures Grows(l, After(l, Update(l, owner, id, edit, expected, now)))
  {
    GrowsRefl(l);
    if ValidJob(edit) && Editable(l, owner, id, expected) && !Terminal(l.jobs[id].status) {
      var row := EditedJob(l.jobs[id], edit, now);
      EditableReady(l, owner, id, expected, row);
      assert JobGrows(l.jobs[id], row);
      hide EditedJob;
      hide Inv;
      hide InvalidateStale;
      hide Grows;
      BumpGrows(l, id, row, now);
    }
  }

  lemma ChangeStatusGrows(l: Ledger, owner: Id, id: Id, expected: nat, status: JobStatus, now: int)
    requires Inv(l)
    ensures Grows(l, After(l, ChangeStatus(l, owner, id, expected, status, now)))
  {
    GrowsRefl(l);
    hide Grows;
    if Editable(l, owner, id, expected) && !Terminal(l.jobs[id].status) {
      var row := ChangedJob(l.jobs[id], status, now);
      EditableReady(l, owner, id, expected, row);
      assert JobGrows(l.jobs[id], row);
      hide ChangedJob;
      hide Inv;
      hide InvalidateStale;
      hide Redact;
      BumpRedactGrows(l, id, row, now);
    }
  }

  lemma DeleteGrows(l: Ledger, owner: Id, id: Id, expected: nat, now: int)
    requires Inv(l)
    ensures Grows(l, After(l, Delete(l, owner, id, expected, now)))
  {
    GrowsRefl(l);
    hide Grows;
    if Editable(l, owner, id, expected) {
      var row := DeletedJob(l.jobs[id]);
      EditableReady(l, owner, id, expected, row);
      assert JobGrows(l.jobs[id], row);
      hide DeletedJob;
      hide Inv;
      hide InvalidateStale;
      hide Redact;
      BumpRedactGrows(l, id, row, now);
    }
  }

  lemma CreateGrows(l: Ledger, id: Id, job: Job, now: int)
    ensures Grows(l, After(l, Create(l, id, job, now)))
  {
    GrowsRefl(l);
    if ValidJob(job) && id !in l.jobs {
      hide Blank;
      SetJobGrows(l, id, NewJob(job, now));
    }
    hide Grows;
  }

  lemma ApplyGrows(l: Ledger, e: Event)
    requires SchedulesValid(l) && Inv(l)
    ensures Grows(l, Apply(l, e))
  {
    GrowsRefl(l);
    hide Grows;
    hide Inv;
    if QuietEvent(e) {
      QuietEvents(l, e);
      hide Apply;
      QuietGrows(l, Apply(l, e));
    } else {
      WorkEventsGrow(l, e);
    }
  }

  lemma WorkEventsGrow(l: Ledger, e: Event)
    requires SchedulesValid(l) && Inv(l) && !QuietEvent(e)
    ensures Grows(l, Apply(l, e))
  {
    GrowsRefl(l);
    hide Grows;
    hide Inv;
    hide Create;
    hide Update;
    hide ChangeStatus;
    hide Delete;
    hide RequestManualRun;
    hide ClaimDueRun;
    hide CompleteRun;
    hide FailRun;
    match e
    case Creating(id, job, now) => CreateGrows(l, id, job, now);
    case Updating(owner, id, edit, expected, now) => UpdateGrows(l, owner, id, edit, expected, now);
    case Changing(owner, id, expected, status, now) => ChangeStatusGrows(l, owner, id, expected, status, now);
    case Deleting(owner, id, expected, now) => DeleteGrows(l, owner, id, expected, now);
    case RequestingRun(owner, id, revision, run, now) => ManualRunGrows(l, owner, id, revision, run, now);
    case ClaimingRun(pending, active, now, until, run, token) => ClaimDueRunGrows(l, pending, active, now, until, run, token);
    case Completing(run, token, outcome, frames, now) => CompleteRunGrows(l, run, token, outcome, frames, now);
    case Failing(run, token, now) => FailRunGrows(l, run, token, now);
  }

  lemma {:induction false} PlayGrows(l: Ledger, events: seq<Event>)
    requires Inv(l)
    ensures Grows(l, Play(l, events))
    decreases |events|
  {
    hide Grows;
    GrowsRefl(l);
    if events != [] {
      ApplyKeeps(l, events[0]);
      ApplyGrows(l, events[0]);
      hide Inv;
      PlayGrows(Apply(l, events[0]), events[1..]);
      GrowsTrans(l, Apply(l, events[0]), Play(l, events));
    }
  }

  // ----- What growth means for whole histories -----

  /** A finished run keeps exactly the deliveries it has, whatever leases and tokens later calls use. */
  lemma FramesAreCreatedOnce(l: Ledger, events: seq<Event>, run: Id)
    requires Inv(l) && run in l.runs && !RunOpen(l.runs[run].status)
    ensures var l' := Play(l, events);
      && run in l'.runs && l'.runs[run].status == l.runs[run].status && l'.runs[run].outcome == l.runs[run].outcome
      && (forall f: Frame | f.run == run :: f in l'.deliveries <==> f in l.deliveries)
  {
    PlayGrows(l, events);
    hide Inv;
    var l' := Play(l, events);
    hide Play;
    assert RunGrows(l.runs[run], l'.runs[run]);
    forall f: Frame | f.run == run ensures f in l'.deliveries <==> f in l.deliveries {
      assert f in l'.deliveries && f !in l.deliveries ==> MayGetFrames(l, f.run);
    }
  }

  /** An ended or cancelled job stays terminal and never gets another run. */
  lemma TerminalJobsGetNoRuns(l: Ledger, events: seq<Event>, job: Id)
    requires Inv(l) && job in l.jobs && Terminal(l.jobs[job].status)
    ensures var l' := Play(l, events);
      && job in l'.jobs && Terminal(l'.jobs[job].status)
      && (forall r | r in l'.runs && l'.runs[r].job == job :: r in l.runs && l.runs[r].job == job)
  {
    PlayGrows(l, events);
    hide Inv;
    var l' := Play(l, events);
    hide Play;
    forall r | r in l'.runs && l'.runs[r].job == job ensures r in l.runs && l.runs[r].job == job {
      assert r !in l.runs ==> MayAppear(l, l'.runs[r]);
      assert r in l.runs ==> RunGrows(l.runs[r], l'.runs[r]);
    }
  }

  /** A delivery whose outcome is settled is never sent, retried or suppressed again. */
  lemma SettledDeliveriesStaySettled(l: Ledger, events: seq<Event>, f: Frame)
    requires Inv(l) && f in l.deliveries && !FrameOpen(l.deliveries[f].status)
    ensures var l' := Play(l, events); f in l'.deliveries && l'.deliveries[f].status == l.deliveries[f].status
  {
    PlayGrows(l, events);
    hide Inv;
    var l' := Play(l, events);
    hide Play;
    assert FrameGrows(l.deliveries[f], l'.deliveries[f]);
  }

  // ----- Runs that can finish -----

  ghost predicate RunsContinue(l: Ledger) {
    forall r | r in l.runs :: Continues(l, l.runs[r])
  }

  lemma GrowthContinues(l: Ledger, l': Ledger)
    requires Grows(l, l') && RunsContinue(l)
    ensures RunsContinue(l')
  {
    hide Continues;
    hide FramesGrow;
    forall r | r in l'.runs ensures Continues(l', l'.runs[r]) {
      if r in l.runs {
        ContinuesOn(l, l', l.runs[r], l'.runs[r]);
      }
    }
  }

  /** In every reachable ledger the search for the next occurrence succeeds for every open run of an occurrence: a run
      becomes owed only once the occurrence after it was found, and an edit invalidates it. */
  lemma OccurrenceRunsContinue(events: seq<Event>, run: Id)
    ensures Inv(EMPTY)
    ensures var l := Play(EMPTY, events);
      run in l.runs && RunOpen(l.runs[run].status) && ByOccurrence(l.runs[run].trigger) ==>
        l.runs[run].job in l.jobs && HasNext(l.jobs[l.runs[run].job].schedule, l.runs[run].scheduledFor)
  {
    assert Inv(EMPTY);
    var l := Play(EMPTY, events);
    PlayGrows(EMPTY, events);
    GrowthContinues(EMPTY, l);
    hide Play;
    hide Grows;
    hide HasNext;
    assert run in l.runs && RunOpen(l.runs[run].status) ==> Continues(l, l.runs[run]) && Permits(l.jobs[l.runs[run].job], l.runs[run]);
    hide Inv;
  }
}
