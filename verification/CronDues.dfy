/** The last occurrence a job has turned into a run: it only advances between edits, so occurrences never repeat. */
module CronDues {
  import opened Wrappers
  import opened CronSchedule
  import opened CronLedger
  import opened CronInvariant
  import opened CronTransitions
  import opened CronHistory

  /** The revision of each job's last edit; a job that was never edited is absent. */
  type Edits = map<Id, nat>

  function Since(edits: Edits, job: Id): nat {
    if job in edits then edits[job] else 0
  }

  predicate AcceptedEdit(l: Ledger, e: Event) {
    e.Updating? && ValidJob(e.edit) && Editable(l, e.owner, e.id, e.expected) && !Terminal(l.jobs[e.id].status)
  }

  function NoteEdit(l: Ledger, e: Event, edits: Edits): Edits {
    if AcceptedEdit(l, e) then edits[e.id := l.jobs[e.id].revision + 1] else edits
  }

  /** Recorded instants lie in the past, and a pause is later than the last occurrence unless the job is past its end. */
  ghost predicate JobTimes(j: Job, clock: int) {
    && (j.lastDue.Some? ==> j.lastDue.value <= clock)
    && (j.pausedAt.Some? ==> j.pausedAt.value <= clock)
    && (j.lastDue.Some? && j.pausedAt.Some? ==> j.lastDue.value <= j.pausedAt.value || (j.endsAt.Some? && j.endsAt.value <= clock))
  }

  /** Runs since the last edit are for occurrences up to the last one recorded; only terminal jobs have a lifecycle run. */
  ghost predicate RunTimes(j: Job, since: nat, r: Run) {
    && r.revision <= j.revision
    && (r.trigger == ByLifecycle ==> Terminal(j.status))
    && (ByOccurrence(r.trigger) && r.revision >= since ==> j.lastDue.Some? && r.scheduledFor <= j.lastDue.value)
  }

  ghost predicate JobsTimely(l: Ledger, clock: int, edits: Edits) {
    && (forall j | j in l.jobs :: JobTimes(l.jobs[j], clock) && Since(edits, j) <= l.jobs[j].revision)
    && edits.Keys <= l.jobs.Keys
  }

  ghost predicate RunsTimely(l: Ledger, edits: Edits) {
    forall r | r in l.runs :: l.runs[r].job in l.jobs && RunTimes(l.jobs[l.runs[r].job], Since(edits, l.runs[r].job), l.runs[r])
  }

  /** A run for an occurrence of the job as last edited. */
  ghost predicate Current(l: Ledger, edits: Edits, r: Id) {
    r in l.runs && ByOccurrence(l.runs[r].trigger) && l.runs[r].revision >= Since(edits, l.runs[r].job)
  }

  /** Between edits no occurrence is ever turned into two runs. */
  ghost predicate Distinct(l: Ledger, edits: Edits) {
    forall a, b | Current(l, edits, a) && Current(l, edits, b) && l.runs[a].job == l.runs[b].job && l.runs[a].scheduledFor == l.runs[b].scheduledFor :: a == b
  }

  ghost predicate Timely(l: Ledger, clock: int, edits: Edits) {
    JobsTimely(l, clock, edits) && RunsTimely(l, edits) && Distinct(l, edits)
  }

  // ----- Calls that record no occurrence -----

  ghost predicate JobUndue(a: Job, b: Job, now: int, since: nat, since': nat) {
    && a.revision <= b.revision && (Terminal(a.status) ==> Terminal(b.status))
    && (if since' == since then b.lastDue == a.lastDue && b.endsAt == a.endsAt && (b.pausedAt == a.pausedAt || b.pausedAt == Some(now) || b.pausedAt == None)
        else since' == b.revision > a.revision && b.lastDue == None && b.pausedAt == None)
  }

  ghost predicate SameOrigin(a: Run, b: Run) {
    a.job == b.job && a.trigger == b.trigger && a.revision == b.revision && a.scheduledFor == b.scheduledFor
  }

  ghost predicate RunUndue(l: Ledger, l': Ledger, r: Id)
    requires r in l'.runs
  {
    if r in l.runs then SameOrigin(l.runs[r], l'.runs[r])
    else l'.runs[r].trigger == Manually && l'.runs[r].job in l'.jobs && l'.runs[r].revision <= l'.jobs[l'.runs[r].job].revision
  }

  ghost predicate JobsUndue(l: Ledger, l': Ledger, now: int, edits: Edits, edits': Edits) {
    && (forall j | j in l.jobs :: j in l'.jobs && JobUndue(l.jobs[j], l'.jobs[j], now, Since(edits, j), Since(edits', j)))
    && (forall j | j in l'.jobs && j !in l.jobs :: l'.jobs[j].lastDue == None && l'.jobs[j].pausedAt == None && Since(edits', j) == 0)
    && edits'.Keys <= l'.jobs.Keys
  }

  ghost predicate Undue(l: Ledger, l': Ledger, now: int, edits: Edits, edits': Edits) {
    JobsUndue(l, l', now, edits, edits') && forall r | r in l'.runs :: RunUndue(l, l', r)
  }

  lemma JobUndueTimes(a: Job, b: Job, clock: int, now: int, since: nat, since': nat)
    requires JobTimes(a, clock) && since <= a.revision && clock <= now && JobUndue(a, b, now, since, since')
    ensures JobTimes(b, now) && since' <= b.revision
  {
  }

  lemma RunUndueTimes(a: Job, b: Job, now: int, since: nat, since': nat, r: Run)
    requires RunTimes(a, since, r) && JobUndue(a, b, now, since, since')
    ensures RunTimes(b, since', r)
  {
  }

  lemma UndueDistinct(l: Ledger, l': Ledger, now: int, edits: Edits, edits': Edits)
    requires RunsTimely(l, edits) && Distinct(l, edits) && Undue(l, l', now, edits, edits')
    ensures Distinct(l', edits')
  {
    forall r | Current(l', edits', r) ensures Current(l, edits, r) && SameOrigin(l.runs[r], l'.runs[r]) {
      assert RunUndue(l, l', r);
      var job := l.runs[r].job;
      assert JobUndue(l.jobs[job], l'.jobs[job], now, Since(edits, job), Since(edits', job)) && RunTimes(l.jobs[job], Since(edits, job), l.runs[r]);
    }
  }

  lemma UndueTimely(l: Ledger, l': Ledger, clock: int, now: int, edits: Edits, edits': Edits)
    requires Timely(l, clock, edits) && clock <= now && Undue(l, l', now, edits, edits')
    ensures Timely(l', now, edits')
  {
    UndueDistinct(l, l', now, edits, edits');
    hide Distinct;
    forall j | j in l'.jobs ensures JobTimes(l'.jobs[j], now) && Since(edits', j) <= l'.jobs[j].revision {
      if j in l.jobs {
        JobUndueTimes(l.jobs[j], l'.jobs[j], clock, now, Since(edits, j), Since(edits', j));
      }
    }
    forall r | r in l'.runs ensures l'.runs[r].job in l'.jobs && RunTimes(l'.jobs[l'.runs[r].job], Since(edits', l'.runs[r].job), l'.runs[r]) {
      assert RunUndue(l, l', r);
      if r in l.runs {
        var job := l.runs[r].job;
        RunUndueTimes(l.jobs[job], l'.jobs[job], now, Since(edits, job), Since(edits', job), l.runs[r]);
      }
    }
  }

  lemma QuietUndue(l: Ledger, l': Ledger, now: int, edits: Edits)
    requires Quiet(l, l') && edits.Keys <= l.jobs.Keys
    ensures Undue(l, l', now, edits, edits)
  {
    forall j | j in l.jobs ensures JobUndue(l.jobs[j], l'.jobs[j], now, Since(edits, j), Since(edits, j)) {
      assert SameJob(l.jobs[j], l'.jobs[j]);
    }
    forall r | r in l.runs ensures RunUndue(l, l', r) {
      assert RunCalm(l.runs[r], l'.runs[r]);
    }
  }

  lemma RunFinishedUndue(l: Ledger, l': Ledger, run: Id, now: int, edits: Edits)
    requires RunFinished(l, l', run) && edits.Keys <= l.jobs.Keys
    ensures Undue(l, l', now, edits, edits)
  {
  }

  lemma SetJobUndue(l: Ledger, id: Id, row: Job, now: int, edits: Edits)
    requires edits.Keys <= l.jobs.Keys
    requires if id in l.jobs then JobUndue(l.jobs[id], row, now, Since(edits, id), Since(edits, id)) else row.lastDue == None && row.pausedAt == None
    ensures Undue(l, SetJob(l, id, row), now, edits, edits)
  {
  }

  lemma BumpRunsUndue(l: Ledger, id: Id, row: Job, at: int)
    requires LiveRuns(l) && BumpReady(l, id, row)
    ensures var l' := Bump(l, id, row, at); forall r | r in l'.runs :: RunUndue(l, l', r)
  {
    var l' := Bump(l, id, row, at);
    BumpRuns(l, id, row, at);
    hide Bump;
    hide LiveRuns;
    hide RunOpen;
    hide BumpReady;
    forall r | r in l.runs ensures RunUndue(l, l', r) {
      assert RunBumped(l.runs[r], l'.runs[r], id);
    }
  }

  lemma BumpUndue(l: Ledger, id: Id, row: Job, at: int, now: int, edits: Edits, edits': Edits)
    requires Inv(l) && BumpReady(l, id, row) && edits.Keys <= l.jobs.Keys
    requires JobUndue(l.jobs[id], row, now, Since(edits, id), Since(edits', id)) && (edits' == edits || edits' == edits[id := row.revision])
    ensures Undue(l, Bump(l, id, row, at), now, edits, edits')
  {
    BumpRunsUndue(l, id, row, at);
    BumpJobs(l, id, row, at);
    hide Bump;
    hide Inv;
    hide BumpReady;
    hide RunUndue;
    SetRowUndue(l, Bump(l, id, row, at), id, row, now, edits, edits');
    hide JobsUndue;
  }

  lemma SetRowUndue(l: Ledger, l': Ledger, id: Id, row: Job, now: int, edits: Edits, edits': Edits)
    requires id in l.jobs && edits.Keys <= l.jobs.Keys && l'.jobs == l.jobs[id := row]
    requires JobUndue(l.jobs[id], row, now, Since(edits, id), Since(edits', id)) && (edits' == edits || edits' == edits[id := row.revision])
    ensures JobsUndue(l, l', now, edits, edits')
  {
    assert forall j | j in l.jobs && j != id :: JobUndue(l.jobs[j], l.jobs[j], now, Since(edits, j), Since(edits, j));
    hide JobUndue;
  }

  lemma BumpJobs(l: Ledger, id: Id, row: Job, now: int)
    requires id in l.jobs
    ensures Bump(l, id, row, now).jobs == l.jobs[id := row]
  {
  }

  /** Between edits the last occurrence never goes back. */
  ghost predicate DueAdvances(l: Ledger, l': Ledger, edits': Edits) {
    forall j | j in l.jobs :: j in l'.jobs && RowAdvances(l.jobs[j], l'.jobs[j], Since(edits', j))
  }

  ghost predicate RowAdvances(a: Job, b: Job, since: nat) {
    && a.revision <= b.revision
    && (since <= a.revision && a.lastDue.Some? ==> b.lastDue.Some? && a.lastDue.value <= b.lastDue.value)
  }

  lemma AdvancesTrans(a: Ledger, b: Ledger, c: Ledger, edits: Edits, edits': Edits)
    requires DueAdvances(a, b, edits) && DueAdvances(b, c, edits') && (forall j | j in a.jobs :: Since(edits, j) <= Since(edits', j))
    ensures DueAdvances(a, c, edits')
  {
    forall j | j in a.jobs ensures j in c.jobs && RowAdvances(a.jobs[j], c.jobs[j], Since(edits', j)) {
      assert RowAdvances(a.jobs[j], b.jobs[j], Since(edits, j)) && RowAdvances(b.jobs[j], c.jobs[j], Since(edits', j));
      assert Since(edits, j) <= Since(edits', j);
    }
  }

  lemma UndueAdvances(l: Ledger, l': Ledger, now: int, edits: Edits, edits': Edits)
    requires Undue(l, l', now, edits, edits')
    ensures DueAdvances(l, l', edits')
  {
    forall j | j in l.jobs ensures RowAdvances(l.jobs[j], l'.jobs[j], Since(edits', j)) {
      assert JobUndue(l.jobs[j], l'.jobs[j], now, Since(edits, j), Since(edits', j));
    }
  }

  lemma StaysAdvanced(l: Ledger, edits: Edits)
    ensures DueAdvances(l, l, edits)
  {
  }

  lemma RecordedAdvances(l: Ledger, l': Ledger, job: Id, due: int, trigger: Trigger, now: int, edits: Edits)
    requires job in l.jobs && NewDue(l.jobs[job], due, trigger, now) && l'.jobs == l.jobs[job := Recorded(l.jobs[job], due, trigger)]
    ensures DueAdvances(l, l', edits)
  {
  }

  // ----- Calls that record an occurrence -----

  lemma DueIsNew(s: ScheduleSpec, last: Option<int>, now: int, created: int)
    requires WellFormed(s)
    ensures var d := Due(s, last, now, created);
      d.Ok? && d.value.Some? ==> d.value.value <= now && (last.Some? ==> d.value.value > last.value)
  {
    hide Occurs;
    match last
    case Some(t) => CatchUpIsLatest(s, t, now);
    case None =>
      match s
      case Once(_) =>
      case Interval(every, startsAt) =>
        var origin := if startsAt.Some? then startsAt.value else created;
        CatchUpIsLatest(Interval(every, Some(origin)), if startsAt.Some? then origin - 1 else origin, now);
      case Cron(_, _) => CatchUpIsLatest(s, created, now);
  }

  /** An owed occurrence is later than the last one, pauses included. */
  lemma OwedIsNew(l: Ledger, job: Id, now: int)
    requires job in l.jobs && WellFormed(l.jobs[job].schedule) && JobTimes(l.jobs[job], now)
    ensures var o := WhatIsOwed(l, job, now); var j := l.jobs[job];
      (o.Owed? && o.trigger != ByLifecycle) ==>
        && ByOccurrence(o.trigger) && o.due <= now && (j.lastDue.Some? ==> o.due > j.lastDue.value)
        && job in o.ledger.jobs && JobTimes(o.ledger.jobs[job].(lastDue := Some(o.due)), now)
  {
    hide Due;
    hide CatchUp;
    hide Occurs;
    var j := l.jobs[job];
    if j.endsAt.Some? && now >= j.endsAt.value {
      DueIsNew(j.schedule, j.lastDue, j.endsAt.value - 1, j.anchor);
    } else if j.pausedAt.Some? {
      CatchUpIsLatest(j.schedule, j.pausedAt.value, now);
    } else {
      DueIsNew(j.schedule, j.lastDue, now, j.anchor);
    }
  }

  lemma OwedCalm(l: Ledger, job: Id, now: int, edits: Edits)
    requires job in l.jobs && WellFormed(l.jobs[job].schedule) && edits.Keys <= l.jobs.Keys && !Terminal(l.jobs[job].status)
    ensures var o := WhatIsOwed(l, job, now);
      o.OwedRaised? || (Undue(l, o.ledger, now, edits, edits) && o.ledger.runs == l.runs && o.ledger.jobs.Keys == l.jobs.Keys
                       && o.ledger.jobs[job].lastDue == l.jobs[job].lastDue && o.ledger.jobs[job].schedule == l.jobs[job].schedule
                       && (o.Owed? && o.trigger == ByLifecycle ==> Terminal(o.ledger.jobs[job].status)))
  {
    var j := l.jobs[job];
    OwedCases(l, job, now);
    hide WhatIsOwed;
    SetJobUndue(l, job, j, now, edits);
    SetJobUndue(l, job, j.(pausedAt := None), now, edits);
    SetJobUndue(l, job, EndedJob(j), now, edits);
    assert SetJob(l, job, j) == l;
    hide Undue;
    hide WellFormed;
  }

  /** What the inserted run needs for the ledger to stay timely. */
  ghost predicate NewDue(j: Job, due: int, trigger: Trigger, now: int) {
    || trigger == Manually
    || (trigger == ByLifecycle && Terminal(j.status))
    || (ByOccurrence(trigger) && JobTimes(j.(lastDue := Some(due)), now) && (j.lastDue.Some? ==> due > j.lastDue.value))
  }

  function Recorded(j: Job, due: int, trigger: Trigger): Job {
    if ByOccurrence(trigger) then j.(lastDue := Some(due)) else j
  }

  lemma InsertRunRows(l: Ledger, id: Id, job: Id, due: int, trigger: Trigger, now: int)
    requires job in l.jobs
    ensures var s := InsertRun(l, id, job, due, trigger, now);
      s.Committed? ==> id !in l.runs && s.ledger.jobs == l.jobs[job := Recorded(l.jobs[job], due, trigger)]
                       && s.ledger.runs == l.runs[id := NewRun(l.jobs[job], job, due, trigger, now)]
  {
    hide KeyTaken;
    assert l.jobs == l.jobs[job := l.jobs[job]];
  }

  lemma InsertRunDistinct(l: Ledger, l': Ledger, id: Id, job: Id, due: int, trigger: Trigger, now: int, edits: Edits)
    requires RunsTimely(l, edits) && Distinct(l, edits) && job in l.jobs && NewDue(l.jobs[job], due, trigger, now) && id !in l.runs
    requires l'.runs == l.runs[id := NewRun(l.jobs[job], job, due, trigger, now)]
    ensures Distinct(l', edits)
  {
    forall r | Current(l', edits, r) && r != id ensures Current(l, edits, r) && l'.runs[r] == l.runs[r]
      && RunTimes(l.jobs[l.runs[r].job], Since(edits, l.runs[r].job), l.runs[r]) {}
    hide RunsTimely;
  }

  lemma InsertRunJobs(l: Ledger, l': Ledger, job: Id, due: int, trigger: Trigger, now: int, edits: Edits)
    requires JobsTimely(l, now, edits) && job in l.jobs && NewDue(l.jobs[job], due, trigger, now)
    requires l'.jobs == l.jobs[job := Recorded(l.jobs[job], due, trigger)]
    ensures JobsTimely(l', now, edits)
  {
  }

  lemma InsertRunRuns(l: Ledger, l': Ledger, id: Id, job: Id, due: int, trigger: Trigger, now: int, edits: Edits)
    requires RunsTimely(l, edits) && job in l.jobs && NewDue(l.jobs[job], due, trigger, now)
    requires l'.jobs == l.jobs[job := Recorded(l.jobs[job], due, trigger)]
    requires l'.runs == l.runs[id := NewRun(l.jobs[job], job, due, trigger, now)]
    ensures RunsTimely(l', edits)
  {
    hide JobTimes;
    forall r | r in l.runs ensures l'.runs[r].job in l'.jobs && RunTimes(l'.jobs[l.runs[r].job], Since(edits, l.runs[r].job), l.runs[r]) {
      assert RunTimes(l.jobs[l.runs[r].job], Since(edits, l.runs[r].job), l.runs[r]);
    }
  }

  lemma InsertRunTimely(l: Ledger, id: Id, job: Id, due: int, trigger: Trigger, now: int, edits: Edits)
    requires Timely(l, now, edits) && job in l.jobs && NewDue(l.jobs[job], due, trigger, now)
    ensures var l' := After(l, InsertRun(l, id, job, due, trigger, now)); Timely(l', now, edits) && DueAdvances(l, l', edits)
  {
    InsertRunRows(l, id, job, due, trigger, now);
    hide InsertRun;
    hide NewDue;
    hide Recorded;
    hide NewRun;
    hide Distinct;
    hide JobsTimely;
    hide RunsTimely;
    var s := InsertRun(l, id, job, due, trigger, now);
    if s.Committed? {
      InsertRunDistinct(l, s.ledger, id, job, due, trigger, now, edits);
      InsertRunJobs(l, s.ledger, job, due, trigger, now, edits);
      InsertRunRuns(l, s.ledger, id, job, due, trigger, now, edits);
      RecordedAdvances(l, s.ledger, job, due, trigger, now, edits);
    }
    hide JobTimes;
    hide RowAdvances;
    StaysAdvanced(l, edits);
    hide DueAdvances;
  }

  lemma StartRunTimely(l: Ledger, job: Id, due: int, trigger: Trigger, now: int, until: int, id: Id, token: Id, edits: Edits)
    requires Timely(l, now, edits) && job in l.jobs && WellFormed(l.jobs[job].schedule) && NewDue(l.jobs[job], due, trigger, now)
    ensures var l' := After(l, StartRun(l, job, due, trigger, now, until, id, token)); Timely(l', now, edits) && DueAdvances(l, l', edits)
  {
    InsertRunTimely(l, id, job, due, trigger, now, edits);
    StaysAdvanced(l, edits);
    hide DueAdvances;
    hide Timely;
    hide WillEnd;
    hide WellFormed;
    hide KeyTaken;
    hide LeaseRun;
    hide NewDue;
    match InsertRun(l, id, job, due, trigger, now)
    case Aborted =>
    case Committed(l', _) =>
      LeaseTimely(l', id, until, token, now, edits);
      AdvancesTrans(l, l', LeaseRun(l', id, until, token), edits, edits);
  }

  lemma LeaseTimely(l: Ledger, run: Id, until: int, token: Id, now: int, edits: Edits)
    requires Timely(l, now, edits) && run in l.runs && l.runs[run].status == RunPending
    ensures Timely(LeaseRun(l, run, until, token), now, edits) && DueAdvances(l, LeaseRun(l, run, until, token), edits)
  {
    SetRunQuiet(l, run, l.runs[run].(status := RunLeased, leaseUntil := Some(until), token := Some(token)));
    QuietUndue(l, LeaseRun(l, run, until, token), now, edits);
    hide Undue;
    hide Quiet;
    UndueTimely(l, LeaseRun(l, run, until, token), now, now, edits, edits);
    UndueAdvances(l, LeaseRun(l, run, until, token), now, edits, edits);
  }

  lemma OwedTimely(l: Ledger, job: Id, now: int, edits: Edits)
    requires Timely(l, now, edits) && job in l.jobs && WellFormed(l.jobs[job].schedule) && !Terminal(l.jobs[job].status)
    ensures var o := WhatIsOwed(l, job, now);
      o.OwedRaised? || (Timely(o.ledger, now, edits) && DueAdvances(l, o.ledger, edits) && job in o.ledger.jobs && o.ledger.jobs[job].schedule == l.jobs[job].schedule
                       && (o.Owed? ==> NewDue(o.ledger.jobs[job], o.due, o.trigger, now)))
  {
    OwedIsNew(l, job, now);
    OwedCalm(l, job, now, edits);
    hide WhatIsOwed;
    hide WellFormed;
    hide JobTimes;
    var o := WhatIsOwed(l, job, now);
    if !o.OwedRaised? {
      UndueTimely(l, o.ledger, now, now, edits, edits);
      UndueAdvances(l, o.ledger, now, edits, edits);
    }
  }

  lemma {:induction false} ClaimJobsTimely(l: Ledger, scan: seq<Id>, now: int, until: int, id: Id, token: Id, edits: Edits)
    requires SchedulesValid(l) && Inv(l) && Timely(l, now, edits)
    ensures var l' := After(l, ClaimJobs(l, scan, now, until, id, token)); Timely(l', now, edits) && DueAdvances(l, l', edits)
    decreases |scan|
  {
    StaysAdvanced(l, edits);
    hide DueAdvances;
    hide Timely;
    hide WhatIsOwed;
    hide ActiveRun;
    hide StartRun;
    if scan != [] && scan[0] in l.jobs && l.jobs[scan[0]].status == Active {
      if ActiveRun(l, scan[0]) {
        ClaimJobsTimely(l, scan[1..], now, until, id, token, edits);
      } else {
        OwedKeeps(l, scan[0], now);
        OwedTimely(l, scan[0], now, edits);
        hide NewDue;
        hide WellFormed;
        hide Inv;
        match WhatIsOwed(l, scan[0], now)
        case OwedRaised =>
        case Nothing(l') =>
          ClaimJobsTimely(l', scan[1..], now, until, id, token, edits);
          AdvancesTrans(l, l', After(l', ClaimJobs(l', scan[1..], now, until, id, token)), edits, edits);
        case Owed(l', due, trigger) =>
          StartRunTimely(l', scan[0], due, trigger, now, until, id, token, edits);
          AdvancesTrans(l, l', After(l', StartRun(l', scan[0], due, trigger, now, until, id, token)), edits, edits);
      }
    }
  }

  lemma ClaimPendingTimely(l: Ledger, pending: seq<Id>, now: int, until: int, token: Id, clock: int, edits: Edits)
    requires SchedulesValid(l) && Inv(l) && Timely(l, clock, edits) && clock <= now
    ensures var l' := After(l, ClaimPending(l, pending, now, until, token)); Inv(l') && Timely(l', now, edits) && DueAdvances(l, l', edits)
  {
    ClaimPendingQuiet(l, pending, now, until, token);
    var l' := After(l, ClaimPending(l, pending, now, until, token));
    QuietKeeps(l, l');
    QuietUndue(l, l', now, edits);
    hide ClaimPending;
    hide Inv;
    hide Quiet;
    hide Undue;
    hide Timely;
    UndueTimely(l, l', clock, now, edits, edits);
    UndueAdvances(l, l', now, edits, edits);
    hide DueAdvances;
  }

  lemma ClaimDueRunTimely(l: Ledger, pending: seq<Id>, active: seq<Id>, now: int, until: int, id: Id, token: Id, clock: int, edits: Edits)
    requires SchedulesValid(l) && Inv(l) && Timely(l, clock, edits) && clock <= now
    ensures var l' := After(l, ClaimDueRun(l, pending, active, now, until, id, token)); Timely(l', now, edits) && DueAdvances(l, l', edits)
  {
    var l' := After(l, ClaimPending(l, pending, now, until, token));
    ClaimPendingTimely(l, pending, now, until, token, clock, edits);
    TimelyLater(l, clock, now, edits);
    StaysAdvanced(l, edits);
    hide Inv;
    hide DueAdvances;
    hide Timely;
    hide ClaimPending;
    hide ClaimJobs;
    if SchedulesValid(l') {
      ClaimJobsTimely(l', active, now, until, id, token, edits);
      AdvancesTrans(l, l', After(l', ClaimJobs(l', active, now, until, id, token)), edits, edits);
    }
  }

  // ----- The other calls -----

  lemma BumpRedactUndue(l: Ledger, id: Id, row: Job, at: int, now: int, edits: Edits)
    requires Inv(l) && BumpReady(l, id, row) && edits.Keys <= l.jobs.Keys
    requires JobUndue(l.jobs[id], row, now, Since(edits, id), Since(edits, id))
    ensures Undue(l, Bump(l, id, row, at), now, edits, edits) && Undue(l, Redact(Bump(l, id, row, at), id), now, edits, edits)
  {
    var l' := Bump(l, id, row, at);
    BumpUndue(l, id, row, at, now, edits, edits);
    BumpJobs(l, id, row, at);
    RedactQuiet(l', id);
    hide Bump;
    hide Redact;
    QuietAfterUndue(l, l', Redact(l', id), now, edits, edits);
    hide Undue;
  }

  lemma QuietAfterUndue(a: Ledger, b: Ledger, c: Ledger, now: int, edits: Edits, edits': Edits)
    requires Undue(a, b, now, edits, edits') && Quiet(b, c)
    ensures Undue(a, c, now, edits, edits')
  {
    forall j | j in c.jobs ensures c.jobs[j] == b.jobs[j].(content := c.jobs[j].content) {
      assert SameJob(b.jobs[j], c.jobs[j]);
    }
    forall r | r in c.runs ensures RunUndue(a, c, r) {
      assert RunUndue(a, b, r) && RunCalm(b.runs[r], c.runs[r]);
    }
  }

  lemma EditUndue(a: Job, edit: Job, now: int, since: nat)
    requires since <= a.revision && !Terminal(a.status)
    ensures var b := EditedJob(a, edit, now); JobUndue(a, b, now, since, b.revision)
    ensures EditedJob(a, edit, now).revision == a.revision + 1
  {
  }

  lemma UpdateUndue(l: Ledger, e: Event, edits: Edits)
    requires SchedulesValid(l) && Inv(l) && e.Updating? && JobsTimely(l, e.now, edits)
    ensures Undue(l, Apply(l, e), e.now, edits, NoteEdit(l, e, edits))
  {
    hide Quiet;
    hide Undue;
    if !AcceptedEdit(l, e) {
      QuietRefl(l);
      QuietUndue(l, l, e.now, edits);
    } else {
      var row := EditedJob(l.jobs[e.id], e.edit, e.now);
      EditableReady(l, e.owner, e.id, e.expected, row);
      EditUndue(l.jobs[e.id], e.edit, e.now, Since(edits, e.id));
      hide EditedJob;
      hide JobTimes;
      hide JobUndue;
      hide InvalidateStale;
      hide Inv;
      BumpUndue(l, e.id, row, e.now, e.now, edits, edits[e.id := row.revision]);
    }
  }

  lemma ChangeStatusUndue(l: Ledger, owner: Id, id: Id, expected: nat, status: JobStatus, now: int, edits: Edits)
    requires Inv(l) && edits.Keys <= l.jobs.Keys
    ensures Undue(l, After(l, ChangeStatus(l, owner, id, expected, status, now)), now, edits, edits)
  {
    QuietRefl(l);
    QuietUndue(l, l, now, edits);
    hide Undue;
    if Editable(l, owner, id, expected) && !Terminal(l.jobs[id].status) {
      var row := ChangedJob(l.jobs[id], status, now);
      EditableReady(l, owner, id, expected, row);
      assert JobUndue(l.jobs[id], row, now, Since(edits, id), Since(edits, id));
      hide ChangedJob;
      hide Inv;
      hide InvalidateStale;
      hide Redact;
      BumpRedactUndue(l, id, row, now, now, edits);
    }
  }

  lemma DeleteUndue(l: Ledger, owner: Id, id: Id, expected: nat, now: int, edits: Edits)
    requires Inv(l) && edits.Keys <= l.jobs.Keys
    ensures Undue(l, After(l, Delete(l, owner, id, expected, now)), now, edits, edits)
  {
    QuietRefl(l);
    QuietUndue(l, l, now, edits);
    hide Undue;
    if Editable(l, owner, id, expected) {
      var row := DeletedJob(l.jobs[id]);
      EditableReady(l, owner, id, expected, row);
      assert JobUndue(l.jobs[id], row, now, Since(edits, id), Since(edits, id));
      hide DeletedJob;
      hide Inv;
      hide InvalidateStale;
      hide Redact;
      BumpRedactUndue(l, id, row, now, now, edits);
    }
  }

  lemma CreateUndue(l: Ledger, id: Id, job: Job, now: int, edits: Edits)
    requires edits.Keys <= l.jobs.Keys
    ensures Undue(l, After(l, Create(l, id, job, now)), now, edits, edits)
  {
    QuietRefl(l);
    QuietUndue(l, l, now, edits);
    if id !in l.jobs {
      SetJobUndue(l, id, NewJob(job, now), now, edits);
    }
    hide Undue;
  }

  lemma CompleteRunUndue(l: Ledger, run: Id, token: Id, outcome: RunOutcome, frames: seq<string>, now: int, edits: Edits)
    requires Inv(l) && SchedulesValid(l) && edits.Keys <= l.jobs.Keys
    ensures Undue(l, After(l, CompleteRun(l, run, token, outcome, frames, now)), now, edits, edits)
  {
    CompleteRunFinishes(l, run, token, outcome, frames, now);
    hide CompleteRun;
    hide Inv;
    hide CountMoves;
    QuietRefl(l);
    QuietUndue(l, l, now, edits);
    hide Undue;
    var s := CompleteRun(l, run, token, outcome, frames, now);
    if s.Committed? && s.value {
      RunFinishedUndue(l, s.ledger, run, now, edits);
    }
  }

  lemma FailRunUndue(l: Ledger, run: Id, token: Id, now: int, edits: Edits)
    requires Inv(l) && SchedulesValid(l) && edits.Keys <= l.jobs.Keys
    ensures Undue(l, After(l, FailRun(l, run, token, now)), now, edits, edits)
  {
    FailRunShape(l, run, token, now);
    hide FailRun;
    hide Inv;
    hide CountMoves;
    QuietRefl(l);
    QuietUndue(l, l, now, edits);
    hide Undue;
    hide Quiet;
    var s := FailRun(l, run, token, now);
    if s.Committed? && s.value {
      if l.runs[run].attempts + 1 < MAX_RUN_ATTEMPTS {
        QuietUndue(l, s.ledger, now, edits);
      } else {
        RunFinishedUndue(l, s.ledger, run, now, edits);
      }
    }
  }

  lemma ManualRunTimely(l: Ledger, owner: Id, job: Id, expected: Option<nat>, id: Id, at: int, now: int, edits: Edits)
    requires Timely(l, now, edits)
    ensures var l' := After(l, RequestManualRun(l, owner, job, expected, id, at)); Timely(l', now, edits) && DueAdvances(l, l', edits)
  {
    StaysAdvanced(l, edits);
    hide DueAdvances;
    hide Timely;
    hide ActiveRun;
    hide InsertRun;
    if job in l.jobs {
      InsertManualTimely(l, id, job, at, now, edits);
    }
  }

  lemma InsertManualTimely(l: Ledger, id: Id, job: Id, at: int, now: int, edits: Edits)
    requires Timely(l, now, edits) && job in l.jobs
    ensures var l' := After(l, InsertRun(l, id, job, at, Manually, at)); Timely(l', now, edits) && DueAdvances(l, l', edits)
  {
    StaysAdvanced(l, edits);
    var s := InsertRun(l, id, job, at, Manually, at);
    InsertRunRows(l, id, job, at, Manually, at);
    hide InsertRun;
    if s.Committed? {
      assert s.ledger.jobs == l.jobs;
      assert forall r | r in s.ledger.runs :: RunUndue(l, s.ledger, r);
      UndueTimely(l, s.ledger, now, now, edits, edits);
      UndueAdvances(l, s.ledger, now, edits, edits);
    }
  }

  /** The instant a call reads from the clock. */
  function Clock(e: Event): Option<int> {
    if e.Renewing? || e.Beginning? || e.Redacting? then None else Some(e.now)
  }

  function Tick(clock: int, e: Event): int {
    if Clock(e).Some? then Clock(e).value else clock
  }

  lemma UndueEvents(l: Ledger, e: Event, now: int, edits: Edits)
    requires SchedulesValid(l) && Inv(l) && JobsTimely(l, now, edits)
    requires !e.ClaimingRun? && !e.RequestingRun? && now == Tick(now, e)
    ensures Undue(l, Apply(l, e), now, edits, NoteEdit(l, e, edits))
  {
    hide Undue;
    hide Inv;
    hide JobTimes;
    if QuietEvent(e) {
      QuietEvents(l, e);
      hide Apply;
      QuietUndue(l, Apply(l, e), now, edits);
    } else if e.Updating? {
      UpdateUndue(l, e, edits);
    } else {
      hide Create;
      hide ChangeStatus;
      hide Delete;
      hide CompleteRun;
      hide FailRun;
      QuietRefl(l);
      QuietUndue(l, l, now, edits);
      hide Quiet;
      match e
      case Creating(id, job, _) => CreateUndue(l, id, job, now, edits);
      case Changing(owner, id, expected, status, _) => ChangeStatusUndue(l, owner, id, expected, status, now, edits);
      case Deleting(owner, id, expected, _) => DeleteUndue(l, owner, id, expected, now, edits);
      case Completing(run, token, outcome, frames, _) => CompleteRunUndue(l, run, token, outcome, frames, now, edits);
      case Failing(run, token, _) => FailRunUndue(l, run, token, now, edits);
    }
  }

  lemma TimelyLater(l: Ledger, clock: int, now: int, edits: Edits)
    requires Timely(l, clock, edits) && clock <= now
    ensures Timely(l, now, edits)
  {
  }

  /** With a clock that does not go back, every call keeps the recorded instants and occurrences consistent. */
  lemma ApplyTimely(l: Ledger, e: Event, clock: int, edits: Edits)
    requires SchedulesValid(l) && Inv(l) && Timely(l, clock, edits) && clock <= Tick(clock, e)
    ensures Timely(Apply(l, e), Tick(clock, e), NoteEdit(l, e, edits)) && DueAdvances(l, Apply(l, e), NoteEdit(l, e, edits))
    ensures forall j | j in l.jobs :: Since(edits, j) <= Since(NoteEdit(l, e, edits), j)
  {
    var now := Tick(clock, e);
    TimelyLater(l, clock, now, edits);
    hide DueAdvances;
    hide JobTimes;
    hide Distinct;
    hide RunsTimely;
    if e.ClaimingRun? {
      hide Timely;
      hide Inv;
      ClaimDueRunTimely(l, e.pending, e.active, now, e.until, e.run, e.token, clock, edits);
      hide ClaimDueRun;
    } else if e.RequestingRun? {
      hide Timely;
      hide Inv;
      ManualRunTimely(l, e.owner, e.id, e.revision, e.run, now, now, edits);
      hide RequestManualRun;
    } else {
      UndueEvents(l, e, now, edits);
      hide Undue;
      hide Inv;
      hide Apply;
      UndueTimely(l, Apply(l, e), now, now, edits, NoteEdit(l, e, edits));
      UndueAdvances(l, Apply(l, e), now, edits, NoteEdit(l, e, edits));
    }
  }

  // ----- Whole histories with a clock that does not go back -----

  predicate Monotone(clock: int, events: seq<Event>)
    decreases |events|
  {
    events == [] || (clock <= Tick(clock, events[0]) && Monotone(Tick(clock, events[0]), events[1..]))
  }

  ghost function EditsAfter(l: Ledger, events: seq<Event>, edits: Edits): Edits
    requires Inv(l)
    decreases |events|
  {
    if events == [] then edits
    else
      ApplyKeeps(l, events[0]);
      EditsAfter(Apply(l, events[0]), events[1..], NoteEdit(l, events[0], edits))
  }

  function ClockAfter(clock: int, events: seq<Event>): int
    decreases |events|
  {
    if events == [] then clock else ClockAfter(Tick(clock, events[0]), events[1..])
  }

  /** With a clock that does not go back: recorded instants stay consistent, and a job's last occurrence
      never goes back across calls none of which edits it. */
  lemma {:induction false} PlayTimely(l: Ledger, events: seq<Event>, clock: int, edits: Edits)
    requires Inv(l) && Timely(l, clock, edits) && Monotone(clock, events)
    ensures var edits' := EditsAfter(l, events, edits);
      && Timely(Play(l, events), ClockAfter(clock, events), edits')
      && DueAdvances(l, Play(l, events), edits')
      && (forall j | j in l.jobs :: Since(edits, j) <= Since(edits', j))
    decreases |events|
  {
    hide Timely;
    StaysAdvanced(l, edits);
    if events != [] {
      var l1, edits1 := Apply(l, events[0]), NoteEdit(l, events[0], edits);
      ApplyKeeps(l, events[0]);
      ApplyTimely(l, events[0], clock, edits);
      PlayTimely(l1, events[1..], Tick(clock, events[0]), edits1);
      hide Inv;
      assert forall j | j in l.jobs :: j in l1.jobs;
      hide DueAdvances;
      hide Apply;
      hide NoteEdit;
      hide Since;
      hide Tick;
      AdvancesTrans(l, l1, Play(l, events), edits1, EditsAfter(l, events, edits));
    }
  }

  /** In every history whose clock does not go back, no occurrence of a job as last edited is run twice. */
  lemma OccurrencesRunOnce(events: seq<Event>, clock: int)
    requires Monotone(clock, events)
    ensures Inv(EMPTY)
    ensures var l := Play(EMPTY, events); var edits := EditsAfter(EMPTY, events, map[]);
      && (forall a, b | Current(l, edits, a) && Current(l, edits, b) && l.runs[a].job == l.runs[b].job && l.runs[a].scheduledFor == l.runs[b].scheduledFor :: a == b)
      && (forall r | Current(l, edits, r) :: l.runs[r].job in l.jobs && l.jobs[l.runs[r].job].lastDue.Some?
                                             && l.runs[r].scheduledFor <= l.jobs[l.runs[r].job].lastDue.value <= ClockAfter(clock, events))
  {
    assert Inv(EMPTY);
    PlayTimely(EMPTY, events, clock, map[]);
    hide Inv;
    hide Play;
    hide EditsAfter;
    hide ClockAfter;
  }

  // ----- The property -----

  /** The key of an owed run is taken exactly when a run from before the last edit already used it. */
  lemma OccurrencesRepeatOnlyAfterEdits(l: Ledger, job: Id, now: int, edits: Edits)
    requires Inv(l) && Timely(l, now, edits) && job in l.jobs && l.jobs[job].status == Active && WellFormed(l.jobs[job].schedule)
    ensures var o := WhatIsOwed(l, job, now);
      o.Owed? ==> (KeyTaken(o.ledger, job, o.due, o.trigger) <==>
        o.trigger != ByLifecycle && exists r | r in l.runs ::
          l.runs[r].job == job && l.runs[r].revision < Since(edits, job) && l.runs[r].scheduledFor == o.due && l.runs[r].trigger == o.trigger)
  {
    OwedIsNew(l, job, now);
    OwedCalm(l, job, now, edits);
    hide WhatIsOwed;
    hide WellFormed;
    hide JobTimes;
    hide Inv;
    hide Undue;
  }

  /** A job that was never edited never raises on a repeated occurrence. */
  lemma UneditedJobsNeverRepeat(l: Ledger, job: Id, now: int, edits: Edits)
    requires Inv(l) && Timely(l, now, edits) && job in l.jobs && l.jobs[job].status == Active && WellFormed(l.jobs[job].schedule)
    requires job !in edits
    ensures var o := WhatIsOwed(l, job, now); o.Owed? ==> !KeyTaken(o.ledger, job, o.due, o.trigger)
  {
    OccurrencesRepeatOnlyAfterEdits(l, job, now, edits);
    hide Timely;
    hide WhatIsOwed;
    hide WellFormed;
    hide Inv;
  }

  // ----- An edit may make the claim raise -----

  const EVERY_SECOND := Job(0, Content("telegram:1", "water the plants", []), Interval(1_000_000, Some(0)), None, None, Active, 1, 0, None, None, 0)

  lemma EverySecondIsValid()
    ensures ValidContent(EVERY_SECOND.content)
  {
    assert EVERY_SECOND.content.destination[0] == 't' && EVERY_SECOND.content.text[0] == 'w';
  }

  /** Create a job, claim its first run, edit the job: the same occurrence is owed again, and the claim raises. */
  lemma EditMayRepeatAnOccurrence()
    ensures Inv(EMPTY)
    ensures var l := Play(EMPTY, [Creating(1, EVERY_SECOND, 0), ClaimingRun([], [1], 0, 60, 7, 9), Updating(0, 1, EVERY_SECOND, 1, 0)]);
      && SchedulesValid(l) && 1 in l.jobs && l.jobs[1].status == Active && !ActiveRun(l, 1)
      && ClaimDueRun(l, [], [1], 0, 60, 8, 10) == Aborted
  {
    assert Inv(EMPTY);
    var first := Creating(1, EVERY_SECOND, 0);
    var second := ClaimingRun([], [1], 0, 60, 7, 9);
    var third := Updating(0, 1, EVERY_SECOND, 1, 0);
    var l1 := Ledger(map[1 := EVERY_SECOND], map[], map[]);
    var j2 := EVERY_SECOND.(lastDue := Some(0));
    var run := Run(1, 0, BySchedule, 1, RunLeased, 0, 0, Some(60), Some(9), None, None);
    var l2 := Ledger(map[1 := j2], map[7 := run], map[]);
    var j3 := EVERY_SECOND.(revision := 2);
    var l3 := Ledger(map[1 := j3], map[7 := run.(status := Invalidated, leaseUntil := None)], map[]);
    FirstClaim(l1, l2, run, j2);
    SecondClaim(l3, j3);
    TheEdit(l2, l3, run);
    EverySecondIsValid();
    hide Blank;
    assert Leads(EMPTY, first, l1);
    hide Inv;
    hide Apply;
    PlayPath(EMPTY, [first, second, third], [EMPTY, l1, l2, l3]);
  }

  lemma FirstClaim(l1: Ledger, l2: Ledger, run: Run, j2: Job)
    requires l1 == Ledger(map[1 := EVERY_SECOND], map[], map[]) && j2 == EVERY_SECOND.(lastDue := Some(0))
    requires run == Run(1, 0, BySchedule, 1, RunLeased, 0, 0, Some(60), Some(9), None, None)
    requires l2 == Ledger(map[1 := j2], map[7 := run], map[])
    ensures SchedulesValid(l1) && Apply(l1, ClaimingRun([], [1], 0, 60, 7, 9)) == l2
  {
    assert CatchUp(EVERY_SECOND.schedule, -1, 0) == Ok(Some(0));
    assert WhatIsOwed(l1, 1, 0) == Owed(l1, 0, BySchedule);
    assert !KeyTaken(l1, 1, 0, BySchedule) && !ActiveRun(l1, 1);
    assert StartRun(l1, 1, 0, BySchedule, 0, 60, 7, 9) == Committed(l2, Some(7));
    assert ClaimJobs(l1, [1], 0, 60, 7, 9) == Committed(l2, Some(7));
  }

  lemma TheEdit(l2: Ledger, l3: Ledger, run: Run)
    requires run == Run(1, 0, BySchedule, 1, RunLeased, 0, 0, Some(60), Some(9), None, None)
    requires l2 == Ledger(map[1 := EVERY_SECOND.(lastDue := Some(0))], map[7 := run], map[])
    requires l3 == Ledger(map[1 := EVERY_SECOND.(revision := 2)], map[7 := run.(status := Invalidated, leaseUntil := None)], map[])
    ensures SchedulesValid(l2) && Apply(l2, Updating(0, 1, EVERY_SECOND, 1, 0)) == l3
  {
    EverySecondIsValid();
    hide Blank;
    assert !HasSending(l2, 1);
    var l' := Apply(l2, Updating(0, 1, EVERY_SECOND, 1, 0));
    assert l'.jobs == l3.jobs && l'.deliveries == l3.deliveries;
    assert l'.runs.Keys == l3.runs.Keys && l'.runs[7] == l3.runs[7];
  }

  lemma SecondClaim(l3: Ledger, j3: Job)
    requires j3 == EVERY_SECOND.(revision := 2) && l3.jobs == map[1 := j3] && l3.deliveries == map[]
    requires 7 in l3.runs && l3.runs.Keys == {7} && l3.runs[7].job == 1 && l3.runs[7].scheduledFor == 0 && l3.runs[7].trigger == BySchedule
    requires l3.runs[7].status == Invalidated
    ensures SchedulesValid(l3) && !ActiveRun(l3, 1) && ClaimDueRun(l3, [], [1], 0, 60, 8, 10) == Aborted
  {
    assert CatchUp(j3.schedule, -1, 0) == Ok(Some(0));
    assert WhatIsOwed(l3, 1, 0) == Owed(l3, 0, BySchedule);
    assert KeyTaken(l3, 1, 0, BySchedule);
    assert ClaimJobs(l3, [1], 0, 60, 8, 10) == Aborted;
  }
}
