/** The durable cron ledger: its tables, and each store call as one transaction over them.
    A transaction that raises is rolled back (`Aborted`). Identifiers, lease tokens and clocks are inputs. */
module CronLedger {
  import opened Wrappers
  import opened CronSchedule

  type Id = nat

  const MICROS_PER_SECOND := 1_000_000
  const MAX_RUN_ATTEMPTS := 3
  const MAX_DELIVERY_ATTEMPTS := 5
  const MAX_FRAME_CHARS := 4096

  datatype JobStatus = Active | Paused | Ended | Cancelled
  datatype RunStatus = RunPending | RunLeased | Executing | Succeeded | RunRetryWait | Failed | Invalidated
  datatype DeliveryStatus = Pending | Leased | Sending | Delivered | RetryWait | Exhausted | Suppressed | Unknown
  datatype Trigger = ByLifecycle | BySchedule | ByCatchup | Manually
  datatype RunOutcome = SucceededOutcome | PartialOutcome | FailedOutcome | ApprovalNeeded | ControlNotice

  /** The stored destination and intent of a job; a tombstone keeps neither. */
  datatype Content = Redacted | Content(destination: string, text: string, constraints: seq<string>)

  datatype Job = Job(
    owner: Id, content: Content, schedule: ScheduleSpec, endsAt: Option<int>, maxSuccesses: Option<nat>,
    status: JobStatus, revision: nat, successes: nat, lastDue: Option<int>, pausedAt: Option<int>, anchor: int)

  datatype Run = Run(
    job: Id, scheduledFor: int, trigger: Trigger, revision: nat, status: RunStatus, attempts: nat,
    availableAt: int, leaseUntil: Option<int>, token: Option<Id>, outcome: Option<RunOutcome>, output: Option<seq<string>>)

  /** A delivery row is named by its run and its sequence, which the source keeps unique together. */
  datatype Frame = Frame(run: Id, sequence: nat)

  /** A delivery keeps the destination its job had when its run finished: none if the job was erased by then. */
  datatype Delivery = Delivery(
    status: DeliveryStatus, attempts: nat, availableAt: int, leaseUntil: Option<int>, token: Option<Id>,
    output: Option<string>, jobRevision: nat, updatedAt: int, destination: Option<string>)

  datatype Ledger = Ledger(jobs: map<Id, Job>, runs: map<Id, Run>, deliveries: map<Frame, Delivery>)

  const EMPTY := Ledger(map[], map[], map[])

  datatype Step<+T> = Aborted | Committed(ledger: Ledger, value: T)

  function After<T>(l: Ledger, step: Step<T>): Ledger {
    if step.Committed? then step.ledger else l
  }

  predicate RunOpen(status: RunStatus) {
    status.RunPending? || status.RunLeased? || status.Executing? || status.RunRetryWait?
  }

  predicate FrameOpen(status: DeliveryStatus) {
    status.Pending? || status.Leased? || status.Sending? || status.RetryWait?
  }

  predicate Waiting(status: DeliveryStatus) {
    status == Pending || status == RetryWait
  }

  /** Runs that stand for an occurrence of the schedule. */
  predicate ByOccurrence(trigger: Trigger) {
    trigger == BySchedule || trigger == ByCatchup
  }

  predicate Terminal(status: JobStatus) {
    status == Ended || status == Cancelled
  }

  /** The fence every later transition of a run re-checks. */
  predicate Permits(j: Job, r: Run) {
    j.revision == r.revision && (j.status == Active || (r.trigger == ByLifecycle && j.status == Ended))
  }

  predicate FrameOfJob(l: Ledger, f: Frame, job: Id) {
    f in l.deliveries && f.run in l.runs && l.runs[f.run].job == job
  }

  predicate HasSending(l: Ledger, job: Id) {
    exists f | f in l.deliveries :: FrameOfJob(l, f, job) && l.deliveries[f].status == Sending
  }

  predicate HasOpenFrame(l: Ledger, job: Id) {
    exists f | f in l.deliveries :: FrameOfJob(l, f, job) && FrameOpen(l.deliveries[f].status)
  }

  /** A run that is active itself or still has an unfinished delivery. */
  predicate Busy(l: Ledger, run: Id) {
    run in l.runs &&
    (RunOpen(l.runs[run].status) || exists f | f in l.deliveries :: f.run == run && FrameOpen(l.deliveries[f].status))
  }

  predicate ActiveRun(l: Ledger, job: Id) {
    exists r | r in l.runs :: l.runs[r].job == job && Busy(l, r)
  }

  // ----- Shared transaction parts -----

  /** `_invalidate_stale_work`: drop unfinished work that carries an older revision of the job. */
  function InvalidateStale(l: Ledger, job: Id, now: int): (l': Ledger)
    requires job in l.jobs
  {
    var revision := l.jobs[job].revision;
    l.(runs := map r | r in l.runs :: InvalidatedRun(l.runs[r], job, revision),
       deliveries := map f | f in l.deliveries :: StaleDelivery(l, f, job, revision, now))
  }

  function InvalidatedRun(r: Run, job: Id, revision: nat): Run {
    if r.job == job && r.revision != revision && RunOpen(r.status) then r.(status := Invalidated, leaseUntil := None) else r
  }

  function StaleDelivery(l: Ledger, f: Frame, job: Id, revision: nat, now: int): Delivery
    requires f in l.deliveries
  {
    var d := l.deliveries[f];
    if FrameOfJob(l, f, job) && l.runs[f.run].revision != revision && (Waiting(d.status) || d.status == Leased)
    then d.(status := Suppressed, leaseUntil := None, updatedAt := now) else d
  }

  /** `_redact_terminal_if_ready`: erase the content of a terminal job none of whose deliveries is unfinished. */
  function Redact(l: Ledger, job: Id): Ledger {
    if job !in l.jobs || !Terminal(l.jobs[job].status) || HasOpenFrame(l, job) then l
    else Ledger(
      l.jobs[job := l.jobs[job].(content := Redacted)],
      map r | r in l.runs :: if l.runs[r].job == job then l.runs[r].(output := None) else l.runs[r],
      map f | f in l.deliveries :: if FrameOfJob(l, f, job) then l.deliveries[f].(output := None) else l.deliveries[f])
  }

  function Later(t: int, seconds: int): int {
    t + seconds * MICROS_PER_SECOND
  }

  /** Delay one waiting delivery to at least `pace` microseconds from now. */
  function PaceFrame(l: Ledger, f: Frame, now: int, pace: nat): Ledger {
    if pace == 0 || f !in l.deliveries || !Waiting(l.deliveries[f].status) then l
    else
      var d := l.deliveries[f];
      l.(deliveries := l.deliveries[f := d.(availableAt := if d.availableAt < now + pace then now + pace else d.availableAt, updatedAt := now)])
  }

  /** The first waiting delivery of a run among its at most three sequences. */
  function FirstWaiting(l: Ledger, run: Id, sequence: nat, bound: nat): (f: Option<Frame>)
    ensures f.Some? ==> f.value.run == run
    decreases bound
  {
    if bound == 0 then None
    else if Frame(run, sequence) in l.deliveries && Waiting(l.deliveries[Frame(run, sequence)].status) then Some(Frame(run, sequence))
    else FirstWaiting(l, run, sequence + 1, bound - 1)
  }

  /** `_pace_next_delivery` without a sequence: the run's first waiting delivery. */
  function PaceFirst(l: Ledger, run: Id, now: int, pace: nat): Ledger {
    match FirstWaiting(l, run, 0, 3)
    case None => l
    case Some(f) => PaceFrame(l, f, now, pace)
  }

  /** `_due`: what is owed given the last occurrence already turned into a run. */
  function Due(s: ScheduleSpec, last: Option<int>, now: int, created: int): Result<Option<int>>
    requires WellFormed(s)
  {
    match last
    case Some(t) => CatchUp(s, t, now)
    case None =>
      match s
      case Once(at) => Ok(if at <= now then Some(at) else None)
      case Interval(every, startsAt) =>
        var origin := if startsAt.Some? then startsAt.value else created;
        if now < origin then Ok(None)
        else CatchUp(Interval(every, Some(origin)), if startsAt.Some? then origin - 1 else origin, now)
      case Cron(_, _) => CatchUp(s, created, now)
  }

  /** Whether the occurrence after `due` is missing or at or past the end of the job. */
  function LastBefore(s: ScheduleSpec, due: int, ends: Option<int>): Result<bool>
    requires WellFormed(s)
  {
    match NextOccurrence(s, due)
    case Raised => Raised
    case Ok(next) => Ok(ends.Some? && (next.None? || next.value >= ends.value))
  }

  /** `_will_end_after_run` only searches when the job has an end. */
  function WillEnd(j: Job, due: int, trigger: Trigger): Result<bool>
    requires WellFormed(j.schedule)
  {
    if trigger == ByLifecycle || j.schedule.Once? then Ok(true)
    else if j.endsAt.None? then Ok(false)
    else LastBefore(j.schedule, due, j.endsAt)
  }

  predicate SchedulesValid(l: Ledger) {
    forall j | j in l.jobs :: WellFormed(l.jobs[j].schedule)
  }

  // ----- Jobs -----

  predicate Blank(s: string) {
    forall i | 0 <= i < |s| :: s[i] in " \t\n\r"
  }

  predicate ValidContent(c: Content) {
    c.Content? && !Blank(c.destination) && !Blank(c.text) && forall i | 0 <= i < |c.constraints| :: !Blank(c.constraints[i])
  }

  predicate ValidJob(j: Job) {
    && WellFormed(j.schedule) && ValidContent(j.content) && j.revision >= 1
    && (j.maxSuccesses.Some? ==> j.maxSuccesses.value >= 1)
  }

  function Anchor(s: ScheduleSpec, now: int): int {
    if s.Interval? && s.startsAt.Some? then s.startsAt.value else now
  }

  function NewJob(job: Job, now: int): Job {
    job.(successes := 0, lastDue := None, pausedAt := None, anchor := Anchor(job.schedule, now))
  }

  /** `create`: a repeated identifier changes nothing, whether it is accepted or refused. */
  function Create(l: Ledger, id: Id, job: Job, now: int): Step<()> {
    if !ValidJob(job) then Aborted
    else if id in l.jobs then Committed(l, ())
    else Committed(SetJob(l, id, NewJob(job, now)), ())
  }

  predicate Editable(l: Ledger, owner: Id, id: Id, expected: nat) {
    && id in l.jobs && l.jobs[id].owner == owner && l.jobs[id].revision == expected
    && !HasSending(l, id)
  }

  function SetJob(l: Ledger, id: Id, row: Job): Ledger {
    l.(jobs := l.jobs[id := row])
  }

  function EditedJob(j: Job, edit: Job, now: int): Job {
    j.(content := edit.content, schedule := edit.schedule, endsAt := edit.endsAt, maxSuccesses := edit.maxSuccesses,
       revision := j.revision + 1, lastDue := None, pausedAt := None, anchor := now)
  }

  function Update(l: Ledger, owner: Id, id: Id, edit: Job, expected: nat, now: int): Step<bool> {
    if !ValidJob(edit) then Aborted
    else if !Editable(l, owner, id, expected) || Terminal(l.jobs[id].status) then Committed(l, false)
    else
      Committed(InvalidateStale(SetJob(l, id, EditedJob(l.jobs[id], edit, now)), id, now), true)
  }

  function ChangedJob(j: Job, status: JobStatus, now: int): Job {
    j.(status := status, revision := j.revision + 1, pausedAt := if status == Paused then Some(now) else j.pausedAt)
  }

  /** `pause`, `resume` and `cancel`. */
  function ChangeStatus(l: Ledger, owner: Id, id: Id, expected: nat, status: JobStatus, now: int): Step<bool> {
    if !Editable(l, owner, id, expected) || Terminal(l.jobs[id].status) then Committed(l, false)
    else
      var l' := InvalidateStale(SetJob(l, id, ChangedJob(l.jobs[id], status, now)), id, now);
      Committed(if status == Cancelled then Redact(l', id) else l', true)
  }

  function DeletedJob(j: Job): Job {
    j.(status := Cancelled, revision := j.revision + 1)
  }

  function Delete(l: Ledger, owner: Id, id: Id, expected: nat, now: int): Step<bool> {
    if !Editable(l, owner, id, expected) then Committed(l, false)
    else
      var l' := InvalidateStale(SetJob(l, id, DeletedJob(l.jobs[id])), id, now);
      Committed(Redact(l', id), true)
  }

  // ----- Runs -----

  predicate KeyTaken(l: Ledger, job: Id, due: int, trigger: Trigger) {
    exists r | r in l.runs :: l.runs[r].job == job && l.runs[r].scheduledFor == due && l.runs[r].trigger == trigger
  }

  function SetRun(l: Ledger, run: Id, row: Run): Ledger {
    l.(runs := l.runs[run := row])
  }

  function NewRun(j: Job, job: Id, due: int, trigger: Trigger, now: int): Run {
    Run(job, due, trigger, j.revision, RunPending, 0, now, None, None, None, None)
  }

  /** `_run`: insert a pending run; its identifier and (job, due, trigger) must both be new. */
  function InsertRun(l: Ledger, id: Id, job: Id, due: int, trigger: Trigger, now: int): Step<()>
    requires job in l.jobs
  {
    if id in l.runs || KeyTaken(l, job, due, trigger) then Aborted
    else
      var j := l.jobs[job];
      var l' := if trigger == BySchedule || trigger == ByCatchup then SetJob(l, job, j.(lastDue := Some(due))) else l;
      Committed(SetRun(l', id, NewRun(j, job, due, trigger, now)), ())
  }

  function RequestManualRun(l: Ledger, owner: Id, job: Id, expected: Option<nat>, id: Id, now: int): Step<bool> {
    if || job !in l.jobs || l.jobs[job].owner != owner || l.jobs[job].status != Active
       || (expected.Some? && expected.value != l.jobs[job].revision) || ActiveRun(l, job)
    then Committed(l, false)
    else match InsertRun(l, id, job, now, Manually, now)
      case Aborted => Aborted
      case Committed(l', _) => Committed(l', true)
  }

  function LeaseRun(l: Ledger, run: Id, until: int, token: Id): Ledger
    requires run in l.runs
  {
    SetRun(l, run, l.runs[run].(status := RunLeased, leaseUntil := Some(until), token := Some(token)))
  }

  predicate Claimable(l: Ledger, run: Id, now: int) {
    run in l.runs && (l.runs[run].status == RunPending || l.runs[run].status == RunRetryWait) && l.runs[run].availableAt <= now
  }

  /** The first loop of `claim_due_run`: lease a waiting run, or invalidate it when its fence fails. The claim is built
      from the stored content, so it raises for an erased job. */
  function ClaimPending(l: Ledger, scan: seq<Id>, now: int, until: int, token: Id): Step<Option<Id>>
    requires SchedulesValid(l)
    decreases |scan|
  {
    if scan == [] then Committed(l, None)
    else if !Claimable(l, scan[0], now) || l.runs[scan[0]].job !in l.jobs then Aborted
    else
      var run := l.runs[scan[0]];
      var job := l.jobs[run.job];
      if !Permits(job, run) then
        ClaimPending(SetRun(l, scan[0], run.(status := Invalidated, leaseUntil := None)), scan[1..], now, until, token)
      else if job.content.Redacted? || WillEnd(job, run.scheduledFor, run.trigger).Raised? then Aborted
      else Committed(LeaseRun(l, scan[0], until, token), Some(scan[0]))
  }

  datatype Owed = Nothing(ledger: Ledger) | Owed(ledger: Ledger, due: int, trigger: Trigger) | OwedRaised

  function EndedJob(j: Job): Job {
    j.(status := Ended, revision := j.revision + 1)
  }

  /** What an idle active job owes now, with the change made to its row on the way. */
  function WhatIsOwed(l: Ledger, job: Id, now: int): Owed
    requires job in l.jobs && WellFormed(l.jobs[job].schedule)
  {
    var j := l.jobs[job];
    if j.endsAt.Some? && now >= j.endsAt.value then
      match Due(j.schedule, j.lastDue, j.endsAt.value - 1, j.anchor)
      case Raised => OwedRaised
      case Ok(Some(due)) => Owed(l, due, BySchedule)
      case Ok(None) => Owed(SetJob(l, job, EndedJob(j)), now, ByLifecycle)
    else if j.pausedAt.Some? then
      var l' := SetJob(l, job, j.(pausedAt := None));
      match CatchUp(j.schedule, j.pausedAt.value, now)
      case Raised => OwedRaised
      case Ok(Some(due)) => Owed(l', due, ByCatchup)
      case Ok(None) => Nothing(l')
    else
      match Due(j.schedule, j.lastDue, now, j.anchor)
      case Raised => OwedRaised
      case Ok(Some(due)) => Owed(l, due, BySchedule)
      case Ok(None) => Nothing(l)
  }

  /** Insert and lease the run an owed occurrence turns into. */
  function StartRun(l: Ledger, job: Id, due: int, trigger: Trigger, now: int, until: int, id: Id, token: Id): Step<Option<Id>>
    requires job in l.jobs && WellFormed(l.jobs[job].schedule)
  {
    match InsertRun(l, id, job, due, trigger, now)
    case Aborted => Aborted
    case Committed(l', _) =>
      if WillEnd(l.jobs[job], due, trigger).Raised? then Aborted else Committed(LeaseRun(l', id, until, token), Some(id))
  }

  /** The second loop of `claim_due_run`: the first idle active job that owes an occurrence. */
  function ClaimJobs(l: Ledger, scan: seq<Id>, now: int, until: int, id: Id, token: Id): Step<Option<Id>>
    requires SchedulesValid(l)
    decreases |scan|
  {
    if scan == [] then Committed(l, None)
    else if scan[0] !in l.jobs || l.jobs[scan[0]].status != Active then Aborted
    else if ActiveRun(l, scan[0]) then ClaimJobs(l, scan[1..], now, until, id, token)
    else match WhatIsOwed(l, scan[0], now)
      case OwedRaised => Aborted
      case Nothing(l') => ClaimJobs(l', scan[1..], now, until, id, token)
      case Owed(l', due, trigger) => StartRun(l', scan[0], due, trigger, now, until, id, token)
  }

  /** `claim_due_run`. `pending` and `active` are the rows its two queries return, in their order. */
  function ClaimDueRun(l: Ledger, pending: seq<Id>, active: seq<Id>, now: int, until: int, id: Id, token: Id): Step<Option<Id>>
    requires SchedulesValid(l)
  {
    match ClaimPending(l, pending, now, until, token)
    case Aborted => Aborted
    case Committed(l', Some(run)) => Committed(l', Some(run))
    case Committed(l', None) => if SchedulesValid(l') then ClaimJobs(l', active, now, until, id, token) else Aborted
  }

  /** The row a worker may act on: it holds the token, the lease status fits, and the fence passes. */
  predicate Holds(l: Ledger, run: Id, token: Id, begun: bool) {
    && run in l.runs && l.runs[run].token == Some(token) && (l.runs[run].status == RunLeased || (begun && l.runs[run].status == Executing))
    && l.runs[run].job in l.jobs && Permits(l.jobs[l.runs[run].job], l.runs[run])
  }

  function RenewRunLease(l: Ledger, run: Id, token: Id, until: int): Step<bool> {
    if !Holds(l, run, token, true) then Committed(l, false)
    else Committed(SetRun(l, run, l.runs[run].(leaseUntil := Some(until))), true)
  }

  function BeginRun(l: Ledger, run: Id, token: Id, until: int): Step<bool> {
    if !Holds(l, run, token, false) then Committed(l, false)
    else Committed(SetRun(l, run, l.runs[run].(status := Executing, leaseUntil := Some(until))), true)
  }

  function DeferRun(l: Ledger, run: Id, token: Id, delay: int, now: int): Step<bool> {
    if !(1 <= delay <= 60) then Aborted
    else if !Holds(l, run, token, true) then Committed(l, false)
    else Committed(SetRun(l, run, l.runs[run].(status := RunRetryWait, availableAt := Later(now, delay), leaseUntil := None)), true)
  }

  predicate ValidFrames(frames: seq<string>) {
    1 <= |frames| <= 3 && forall i | 0 <= i < |frames| :: !Blank(frames[i]) && |frames[i]| <= MAX_FRAME_CHARS
  }

  function DestinationOf(c: Content): Option<string> {
    if c.Redacted? then None else Some(c.destination)
  }

  function NewDelivery(text: string, destination: Option<string>, revision: nat, now: int): Delivery {
    Delivery(Pending, 0, now, None, None, Some(text), revision, now, destination)
  }

  predicate HasFrames(l: Ledger, run: Id) {
    exists f | f in l.deliveries :: f.run == run
  }

  /** Insert the deliveries of a finished run, sequence 0 first; a taken sequence violates its unique index. */
  function AddFrames(l: Ledger, run: Id, frames: seq<string>, destination: Option<string>, revision: nat, now: int): Step<()> {
    if frames == [] then Committed(l, ())
    else
      var last := |frames| - 1;
      match AddFrames(l, run, frames[..last], destination, revision, now)
      case Aborted => Aborted
      case Committed(l', _) =>
        if Frame(run, last) in l'.deliveries then Aborted
        else Committed(l'.(deliveries := l'.deliveries[Frame(run, last) := NewDelivery(frames[last], destination, revision, now)]), ())
  }

  /** Whether the job ends with this success count and this occurrence. */
  function Ends(j: Job, due: int, successes: nat): Result<bool>
    requires WellFormed(j.schedule)
  {
    match LastBefore(j.schedule, due, j.endsAt)
    case Raised => Raised
    case Ok(last) => Ok(j.schedule.Once? || last || (j.maxSuccesses.Some? && successes >= j.maxSuccesses.value))
  }

  function CompletedRun(row: Run, outcome: RunOutcome, frames: seq<string>): Run {
    row.(status := Succeeded, output := Some(frames), outcome := Some(outcome), leaseUntil := None)
  }

  function Counting(j: Job, outcome: RunOutcome): Job {
    j.(successes := j.successes + if outcome == SucceededOutcome then 1 else 0)
  }

  function EndedIf(j: Job, ends: bool): Job {
    j.(status := if ends then Ended else j.status)
  }

  /** The rows a finished run is committed with. */
  function Finished(l: Ledger, run: Id, row: Run, job: Job, deliveries: map<Frame, Delivery>): Ledger
    requires run in l.runs
  {
    Ledger(l.jobs[l.runs[run].job := job], l.runs[run := row], deliveries)
  }

  function CompleteRun(l: Ledger, run: Id, token: Id, outcome: RunOutcome, frames: seq<string>, now: int): Step<bool>
    requires SchedulesValid(l)
  {
    if !Holds(l, run, token, true) then Committed(l, false)
    else if !ValidFrames(frames) then Aborted
    else
      var row := l.runs[run];
      var j := l.jobs[row.job];
      var counted := Counting(j, outcome);
      match (AddFrames(l, run, frames, DestinationOf(j.content), row.revision, now), Ends(j, row.scheduledFor, counted.successes))
      case (Committed(l', _), Ok(ends)) =>
        Committed(Finished(l, run, CompletedRun(row, outcome, frames), EndedIf(counted, ends), l'.deliveries), true)
      case _ => Aborted
  }

  const FAILURE_NOTICE := "Scheduled task could not be completed."

  function RetriedRun(row: Run, now: int): Run {
    row.(status := RunRetryWait, attempts := row.attempts + 1, availableAt := Later(now, PowerOfTwo(row.attempts)), leaseUntil := None)
  }

  function FailedRun(row: Run, now: int): Run {
    RetriedRun(row, now).(status := Failed, outcome := Some(FailedOutcome))
  }

  function FailRun(l: Ledger, run: Id, token: Id, now: int): Step<bool>
    requires SchedulesValid(l)
  {
    if !Holds(l, run, token, true) then Committed(l, false)
    else
      var row := l.runs[run];
      if row.attempts + 1 < MAX_RUN_ATTEMPTS then Committed(SetRun(l, run, RetriedRun(row, now)), true)
      else
        var j := l.jobs[row.job];
        match (AddFrames(l, run, [FAILURE_NOTICE], DestinationOf(j.content), j.revision, now), LastBefore(j.schedule, row.scheduledFor, j.endsAt))
        case (Committed(l', _), Ok(last)) =>
          var ends := j.schedule.Once? || (last && (row.trigger == BySchedule || row.trigger == ByCatchup));
          Committed(Finished(l, run, FailedRun(row, now), EndedIf(j, ends), l'.deliveries), true)
        case _ => Aborted
  }

  // ----- Deliveries -----

  /** A delivery the claim query may return: waiting, due, and every earlier one of its run finished. */
  predicate Eligible(l: Ledger, f: Frame, now: int) {
    && f in l.deliveries && Waiting(l.deliveries[f].status) && l.deliveries[f].availableAt <= now
    && (forall k: nat | k < f.sequence && Frame(f.run, k) in l.deliveries :: !FrameOpen(l.deliveries[Frame(f.run, k)].status))
  }

  function SetFrame(l: Ledger, f: Frame, row: Delivery): Ledger {
    l.(deliveries := l.deliveries[f := row])
  }

  predicate FrameStale(l: Ledger, f: Frame) {
    && f.run in l.runs && l.runs[f.run].job in l.jobs
    && var j := l.jobs[l.runs[f.run].job]; l.runs[f.run].revision != j.revision || j.status == Cancelled
  }

  /** `claim_delivery`: `picks` are the rows its query returns, one per turn of the loop. A delivery without a
      destination cannot be handed out, so leasing it raises. */
  function ClaimDelivery(l: Ledger, picks: seq<Frame>, now: int, until: int, token: Id): Step<Option<Frame>>
    decreases |picks|
  {
    if picks == [] then Committed(l, None)
    else if !Eligible(l, picks[0], now) then Aborted
    else
      var f := picks[0];
      var d := l.deliveries[f];
      if FrameStale(l, f) then
        ClaimDelivery(Redact(SetFrame(l, f, d.(status := Suppressed, updatedAt := now)), l.runs[f.run].job), picks[1..], now, until, token)
      else if d.destination.None? then Aborted
      else
        Committed(SetFrame(l, f, d.(status := Leased, attempts := d.attempts + 1, token := Some(token), leaseUntil := Some(until), updatedAt := now)), Some(f))
  }

  predicate HoldsFrame(l: Ledger, f: Frame, token: Id, status: DeliveryStatus) {
    f in l.deliveries && l.deliveries[f].token == Some(token) && l.deliveries[f].status == status && f.run in l.runs
  }

  /** The fence immediately before a connector send. */
  predicate Admissible(l: Ledger, f: Frame) {
    && f in l.deliveries && f.run in l.runs && l.runs[f.run].job in l.jobs
    && var j := l.jobs[l.runs[f.run].job]; l.deliveries[f].jobRevision == j.revision && (j.status == Active || j.status == Ended)
  }

  function AdmitDelivery(l: Ledger, f: Frame, token: Id, now: int): Step<bool> {
    if !HoldsFrame(l, f, token, Leased) || !Admissible(l, f) then Committed(l, false)
    else Committed(SetFrame(l, f, l.deliveries[f].(status := Sending, updatedAt := now)), true)
  }

  /** `complete_delivery`, `mark_delivery_unknown` and `suppress_delivery`, by the status they set. */
  function FinishDelivery(l: Ledger, f: Frame, token: Id, status: DeliveryStatus, now: int, pace: nat): Step<bool> {
    if !HoldsFrame(l, f, token, Sending) then Committed(l, false)
    else
      var l1 := SetFrame(l, f, l.deliveries[f].(status := status, leaseUntil := None, updatedAt := now));
      var l2 := if status == Suppressed then l1 else PaceFrame(l1, Frame(f.run, f.sequence + 1), now, pace);
      Committed(Redact(l2, l.runs[f.run].job), true)
  }

  function FailDelivery(l: Ledger, f: Frame, token: Id, now: int, pace: nat): Step<bool> {
    if !HoldsFrame(l, f, token, Sending) then Committed(l, false)
    else
      var d := l.deliveries[f];
      var backoff := Later(now, PowerOfTwo(if d.attempts > 0 then d.attempts - 1 else 0));
      if d.attempts >= MAX_DELIVERY_ATTEMPTS then
        var l1 := SetFrame(l, f, d.(status := Exhausted, availableAt := backoff, leaseUntil := None, updatedAt := now));
        Committed(Redact(PaceFirst(l1, f.run, now, pace), l.runs[f.run].job), true)
      else
        Committed(SetFrame(l, f, d.(status := RetryWait, availableAt := backoff, leaseUntil := None, updatedAt := now)), true)
  }

  // ----- Recovery of expired leases -----

  predicate Expired(lease: Option<int>, now: int) {
    lease.Some? && lease.value < now
  }

  function RecoveredRun(r: Run, now: int): Run {
    if (r.status == RunLeased || r.status == Executing) && Expired(r.leaseUntil, now) then r.(status := RunPending, leaseUntil := None) else r
  }

  function RecoveredFrame(d: Delivery, now: int): Delivery {
    if (d.status == Leased || d.status == Sending) && Expired(d.leaseUntil, now)
    then d.(status := if d.status == Sending then Unknown else Pending, leaseUntil := None, updatedAt := now)
    else d
  }

  function RecoverRows(l: Ledger, now: int): Ledger {
    l.(runs := map r | r in l.runs :: RecoveredRun(l.runs[r], now),
       deliveries := map f | f in l.deliveries :: RecoveredFrame(l.deliveries[f], now))
  }

  function PaceAll(l: Ledger, runs: seq<Id>, now: int, pace: nat): Ledger
    decreases |runs|
  {
    if runs == [] then l else PaceAll(PaceFirst(l, runs[0], now, pace), runs[1..], now, pace)
  }

  function RedactAll(l: Ledger, jobs: seq<Id>): Ledger
    decreases |jobs|
  {
    if jobs == [] then l else RedactAll(Redact(l, jobs[0]), jobs[1..])
  }

  /** Jobs with a delivery whose outcome became unknown at exactly `now`. */
  predicate UnknownNow(l: Ledger, job: Id, now: int) {
    exists f | f in l.deliveries :: FrameOfJob(l, f, job) && l.deliveries[f].status == Unknown && l.deliveries[f].updatedAt == now
  }

  predicate ExpiredSend(l: Ledger, run: Id, now: int) {
    exists f | f in l.deliveries :: f.run == run && l.deliveries[f].status == Sending && Expired(l.deliveries[f].leaseUntil, now)
  }

  /** The rows that the two queries of recovery return, in some order. */
  predicate ListsExpiredSends(l: Ledger, runs: seq<Id>, now: int) {
    && (forall i | 0 <= i < |runs| :: ExpiredSend(l, runs[i], now))
    && (forall f | f in l.deliveries && l.deliveries[f].status == Sending && Expired(l.deliveries[f].leaseUntil, now) :: f.run in runs)
  }

  predicate ListsUnknown(l: Ledger, jobs: seq<Id>, now: int) {
    && (forall i | 0 <= i < |jobs| :: UnknownNow(l, jobs[i], now))
    && (forall f | f in l.deliveries && f.run in l.runs && l.deliveries[f].status == Unknown && l.deliveries[f].updatedAt == now ::
          l.runs[f.run].job in jobs)
  }

  /** `recover_expired_leases`: `runs` and `jobs` are the rows its two later queries return. */
  function Recover(l: Ledger, runs: seq<Id>, jobs: seq<Id>, now: int, pace: nat): Step<()> {
    var l1 := PaceAll(RecoverRows(l, now), runs, now, pace);
    if ListsExpiredSends(l, runs, now) && ListsUnknown(l1, jobs, now) then Committed(RedactAll(l1, jobs), ()) else Aborted
  }
}
