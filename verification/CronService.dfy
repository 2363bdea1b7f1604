/** The scheduler lane: each call recovers leases, then executes one run or sends one delivery, while between any two
    of its steps other lanes and processes may make any moves of the send protocol and any store calls. */
module CronService {
  import opened Wrappers
  import opened CronSchedule
  import opened CronLedger
  import opened CronInvariant
  import opened CronHistory
  import opened CronSends
  import opened CronStore
  import opened CronEffects

  datatype ExecutorResult = Text(frames: seq<string>) | WithOutcome(outcome: RunOutcome, frames: seq<string>) | Malformed | Contended | Crashed

  const APPROVAL_NOTICE := "This scheduled action needs your approval."

  /** What the executor's return value is taken to mean; anything else counts as a failed execution. */
  function Output(result: ExecutorResult): Result<(RunOutcome, seq<string>)> {
    if !result.Text? && !result.WithOutcome? then Raised
    else
      var outcome := if result.Text? then SucceededOutcome else result.outcome;
      if outcome == ApprovalNeeded && result.frames == [] then Ok((outcome, [APPROVAL_NOTICE]))
      else if ValidFrames(result.frames) then Ok((outcome, result.frames))
      else Raised
  }

  /** Text alone counts as a success, with an outcome as that; an approval that is asked for without text gets a notice;
      and what is accepted the ledger accepts as frames of a run, everything else being a failure. */
  lemma OutputIsDeliverable(result: ExecutorResult)
    ensures Output(result) ==
      match result
      case Text(frames) => if Deliverable(frames) then Ok((SucceededOutcome, frames)) else Raised
      case WithOutcome(outcome, frames) =>
        if Deliverable(frames) then Ok((outcome, frames))
        else if outcome.ApprovalNeeded? && frames == [] then Ok((outcome, ["This scheduled action needs your approval."]))
        else Raised
      case _ => Raised
    ensures Output(result).Ok? ==> ValidFrames(Output(result).value.1)
  {
    assert APPROVAL_NOTICE[0] == 'T';
    assert !Blank(APPROVAL_NOTICE);
    if result.Text? || result.WithOutcome? {
      DeliverableIsValid(result.frames);
    }
  }

  /** A move of somebody else: any store call, or any step of another worker of the send protocol. */
  predicate Foreign(m: Move, own: Id) {
    m.Other? || m.token != own
  }

  ghost predicate AllForeign(moves: seq<Move>, own: Id) {
    forall i | 0 <= i < |moves| :: Foreign(moves[i], own)
  }

  /** What the others do, of whatever they are said to do. */
  function Others(moves: seq<Move>, own: Id): (r: seq<Move>)
    ensures AllForeign(r, own)
    ensures AllForeign(moves, own) ==> r == moves
    decreases |moves|
  {
    if moves == [] then [] else Others(moves[..|moves| - 1], own) + if Foreign(moves[|moves| - 1], own) then [moves[|moves| - 1]] else []
  }

  /** What one execution attempt gets from its environment, with what others do before its steps. */
  datatype Execution = Execution(
    pending: seq<Id>, active: seq<Id>, run: Id, token: Id, until: int, beforeBegin: seq<Move>, executingUntil: int,
    during: seq<Move>, result: ExecutorResult, leaseLost: bool, beforeFail: seq<Move>)

  /** What one call gets from its environment, with what others do before its steps. */
  datatype Tick = Tick(
    now: int, expired: seq<Id>, unknown: seq<Id>, afterRecovery: seq<Move>, first: Execution,
    beforeClaim: seq<Move>, picks: seq<Frame>, token: Id, until: int, beforeAdmit: seq<Move>, beforeSuppress: seq<Move>,
    beforeSend: seq<Move>, sent: SendResult, beforeReport: seq<Move>, beforeSecond: seq<Move>, second: Execution)

  /** The moves of a delivery that was admitted: one send, between its admission and its report. */
  function SendingMoves(t: Tick, pace: nat): seq<Move> {
    Others(t.beforeAdmit, t.token) + [Admits(t.token, t.now)] + Others(t.beforeSend, t.token) + [Sends(t.token, t.sent)]
    + Others(t.beforeReport, t.token) + [Reports(t.token, t.now, pace)]
  }

  /** The moves of a delivery that was refused admission. */
  function RefusedMoves(t: Tick): seq<Move> {
    Others(t.beforeAdmit, t.token) + [Admits(t.token, t.now)] + Others(t.beforeSuppress, t.token)
  }

  datatype TickResult = Idle | Executed | DeferredRun | DeliveredTick | UnknownTick | FailedTick | SuppressedTick | Escaped

  /** The connector was called in this tick. */
  predicate OnTheWire(r: TickResult) {
    r == DeliveredTick || r == UnknownTick || r == FailedTick
  }

  const DEFER_SECONDS := 2

  // ----- What the store answers, from the moves so far -----

  ghost function At(moves: seq<Move>): Ledger {
    if Safe(START) then Unfold(START, moves).ledger else EMPTY
  }

  ghost function Answer<T>(step: Step<T>): Result<T> {
    if step.Committed? then Ok(step.value) else Raised
  }

  ghost function ClaimAnswer(moves: seq<Move>, x: Execution, now: int): Result<Option<Id>> {
    if SchedulesValid(At(moves)) then Answer(ClaimDueRun(At(moves), x.pending, x.active, now, x.until, x.run, x.token)) else Raised
  }

  ghost function BeginAnswer(moves: seq<Move>, run: Id, token: Id, until: int): Result<bool> {
    Answer(BeginRun(At(moves), run, token, until))
  }

  ghost function AdmitAnswer(moves: seq<Move>, f: Frame, token: Id, now: int): Result<bool> {
    Answer(AdmitDelivery(At(moves), f, token, now))
  }

  ghost function CompleteAnswer(moves: seq<Move>, run: Id, x: Execution, outcome: RunOutcome, frames: seq<string>, now: int): Result<bool> {
    if SchedulesValid(At(moves)) then Answer(CompleteRun(At(moves), run, x.token, outcome, frames, now)) else Raised
  }

  ghost function FailAnswer(moves: seq<Move>, run: Id, x: Execution, now: int): Result<bool> {
    if SchedulesValid(At(moves)) then Answer(FailRun(At(moves), run, x.token, now)) else Raised
  }

  // ----- What an execution, a delivery and a tick do -----

  /** The failure is recorded last; the lane only stops here if even that raises. */
  ghost predicate FailsAs(before: seq<Move>, run: Id, x: Execution, now: int, own: Id, r: TickResult, calls: seq<Move>) {
    && calls == Others(x.beforeFail, own) + [Other(Failing(run, x.token, now))]
    && r == if FailAnswer(before + Others(x.beforeFail, own), run, x, now).Ok? then Executed else Escaped
  }

  /** What is recorded of a run that was begun: put off for two seconds when the executor was contended; nothing when the
      lease was lost over a good result; a good result as the completion it is, and as a failure only if the completion
      raises; and a failure otherwise. */
  ghost predicate PerformsAs(before: seq<Move>, run: Id, x: Execution, now: int, own: Id, r: TickResult, calls: seq<Move>) {
    var waited := Others(x.during, own);
    if x.result.Contended? then r == DeferredRun && calls == waited + [Other(Deferring(run, x.token, 2, now))]
    else match Output(x.result)
      case Raised => |waited| <= |calls| && calls[..|waited|] == waited && FailsAs(before + waited, run, x, now, own, r, calls[|waited|..])
      case Ok((outcome, frames)) =>
        if x.leaseLost then r == Executed && calls == waited
        else
          var done := waited + [Other(Completing(run, x.token, outcome, frames, now))];
          if CompleteAnswer(before + waited, run, x, outcome, frames, now).Ok? then r == Executed && calls == done
          else |done| <= |calls| && calls[..|done|] == done && FailsAs(before + done, run, x, now, own, r, calls[|done|..])
  }

  /** The run that was claimed is begun, and performed if that succeeds. */
  ghost predicate BeginsAs(before: seq<Move>, run: Id, x: Execution, now: int, own: Id, r: TickResult, calls: seq<Move>) {
    var begun := Others(x.beforeBegin, own) + [Other(Beginning(run, x.token, x.executingUntil))];
    if BeginAnswer(before + Others(x.beforeBegin, own), run, x.token, x.executingUntil) == Ok(true)
    then |begun| <= |calls| && calls[..|begun|] == begun && PerformsAs(before + begun, run, x, now, own, r, calls[|begun|..])
    else r == Idle && calls == begun
  }

  /** An execution claims a run, begins the one it got, and performs the one it began. */
  ghost predicate ExecutesAs(before: seq<Move>, x: Execution, now: int, own: Id, r: TickResult, calls: seq<Move>) {
    var claim := [Other(ClaimingRun(x.pending, x.active, now, x.until, x.run, x.token))];
    match ClaimAnswer(before, x, now)
    case Raised => r == Escaped && calls == claim
    case Ok(None) => r == Idle && calls == claim
    case Ok(Some(run)) => |calls| >= 1 && calls[..1] == claim && BeginsAs(before + claim, run, x, now, own, r, calls[1..])
  }

  /** A delivery that was claimed is sent and reported as the connector answered if it is admitted, and given up if not. */
  ghost predicate SendsAs(before: seq<Move>, f: Frame, t: Tick, pace: nat, r: TickResult, calls: seq<Move>) {
    if AdmitAnswer(before + Others(t.beforeAdmit, t.token), f, t.token, t.now) == Ok(true)
    then calls == SendingMoves(t, pace) && r == match t.sent case Accepted => DeliveredTick case Uncertain => UnknownTick case Rejected => FailedTick
    else calls == RefusedMoves(t) && r == SuppressedTick
  }

  ghost predicate InsteadAs(before: seq<Move>, t: Tick, r: TickResult, calls: seq<Move>) {
    var waited := Others(t.beforeSecond, t.token);
    |waited| <= |calls| && calls[..|waited|] == waited && ExecutesAs(before + waited, t.second, t.now, t.token, r, calls[|waited|..])
  }

  /** Sending comes first; without a delivery a run is executed. */
  ghost predicate SendsOrExecutesAs(before: seq<Move>, t: Tick, pace: nat, r: TickResult, calls: seq<Move>) {
    var claim := [Claims(t.picks, t.now, t.until, t.token)];
    var answer: Result<Option<Frame>> := Answer(ClaimDelivery(At(before), t.picks, t.now, t.until, t.token));
    match answer
    case Raised => r == Escaped && calls == []
    case Ok(Some(f)) => SendsAs(before + claim, f, t, pace, r, calls)
    case Ok(None) => InsteadAs(before + claim, t, r, calls)
  }

  /** The lane's own fields are `store`, `preferExecution` and `pace`; `workers` and `log` are what all lanes are doing
      and what the connector was asked to do, and `trace` is every move so far. */
  class Scheduler {
    const store: Store
    var preferExecution: bool
    const pace: nat
    var workers: map<Id, Attempt>
    var log: seq<Send>
    ghost var trace: seq<Move>

    function World(): World
      reads this`workers, this`log, store
    {
      CronSends.World(store.State(), workers, log)
    }

    /** Between two steps the world is what the recorded moves of the send protocol make of an empty one. */
    ghost predicate Valid()
      reads this`workers, this`log, this`trace, store
    {
      Safe(START) && World() == Unfold(START, trace)
    }

    constructor (store: Store, pace: nat)
      requires store.State() == EMPTY
      ensures Valid() && this.store == store && !preferExecution && log == [] && trace == []
    {
      this.store, this.preferExecution, this.pace := store, false, pace;
      this.workers, this.log, this.trace := map[], [], [];
      new;
      StartSafe();
    }

    /** One move of somebody else. */
    method Foreigner(m: Move, own: Id)
      requires Valid() && Foreign(m, own)
      modifies this`workers, this`log, this`trace, store
      ensures Valid() && trace == old(trace) + [m] && Doing(workers, own) == old(Doing(workers, own))
    {
      hide Safe;
      OneMove(trace, m);
      ForeignKeeps(World(), m, own);
      hide Next;
      hide Doing;
      var w := Next(World(), m);
      store.Rollback(w.ledger);
      workers, log := w.workers, w.log;
      trace := trace + [m];
    }

    /** Whatever others do between two steps of this lane: they never touch what this lane is doing. */
    method Meanwhile(moves: seq<Move>, own: Id)
      requires Valid()
      modifies this`workers, this`log, this`trace, store
      ensures Valid() && trace == old(trace) + Others(moves, own) && Doing(workers, own) == old(Doing(workers, own))
    {
      hide Valid;
      hide Doing;
      for i := 0 to |moves|
        invariant Valid() && trace == old(trace) + Others(moves[..i], own) && Doing(workers, own) == old(Doing(workers, own))
      {
        assert moves[..i + 1][..i] == moves[..i] && moves[..i + 1][i] == moves[i];
        if Foreign(moves[i], own) {
          Foreigner(moves[i], own);
        }
      }
      assert moves[..|moves|] == moves;
    }

    // ----- Executing one run -----

    method ClaimStep(x: Execution, now: int) returns (r: Result<Option<Id>>)
      requires Valid()
      modifies this`trace, store
      ensures Valid() && trace == old(trace) + [Other(ClaimingRun(x.pending, x.active, now, x.until, x.run, x.token))]
      ensures r == ClaimAnswer(old(trace), x, now)
    {
      hide Safe;
      hide ClaimDueRun;
      StoreCall(trace, ClaimingRun(x.pending, x.active, now, x.until, x.run, x.token));
      r := store.ClaimRun(x.pending, x.active, now, x.until, x.run, x.token);
      trace := trace + [Other(ClaimingRun(x.pending, x.active, now, x.until, x.run, x.token))];
    }

    method BeginStep(run: Id, token: Id, until: int) returns (r: Result<bool>)
      requires Valid()
      modifies this`trace, store
      ensures Valid() && trace == old(trace) + [Other(Beginning(run, token, until))]
      ensures r == BeginAnswer(old(trace), run, token, until) && r.Ok?
    {
      hide Safe;
      BeginCommits(store.State(), run, token, until);
      hide BeginRun;
      StoreCall(trace, Beginning(run, token, until));
      r := store.Begin(run, token, until);
      trace := trace + [Other(Beginning(run, token, until))];
    }

    method DeferStep(run: Id, token: Id, now: int) returns (r: Result<bool>)
      requires Valid()
      modifies this`trace, store
      ensures Valid() && trace == old(trace) + [Other(Deferring(run, token, DEFER_SECONDS, now))] && r.Ok?
    {
      hide Safe;
      DeferCommits(store.State(), run, token, now);
      hide DeferRun;
      StoreCall(trace, Deferring(run, token, DEFER_SECONDS, now));
      r := store.Defer(run, token, DEFER_SECONDS, now);
      trace := trace + [Other(Deferring(run, token, DEFER_SECONDS, now))];
    }

    method CompleteStep(run: Id, x: Execution, outcome: RunOutcome, frames: seq<string>, now: int) returns (r: Result<bool>)
      requires Valid()
      modifies this`trace, store
      ensures Valid() && trace == old(trace) + [Other(Completing(run, x.token, outcome, frames, now))]
      ensures r == CompleteAnswer(old(trace), run, x, outcome, frames, now)
    {
      hide Safe;
      hide CompleteRun;
      StoreCall(trace, Completing(run, x.token, outcome, frames, now));
      r := store.Complete(run, x.token, outcome, frames, now);
      trace := trace + [Other(Completing(run, x.token, outcome, frames, now))];
    }

    method FailStep(run: Id, x: Execution, now: int) returns (r: Result<bool>)
      requires Valid()
      modifies this`trace, store
      ensures Valid() && trace == old(trace) + [Other(Failing(run, x.token, now))]
      ensures r == FailAnswer(old(trace), run, x, now)
    {
      hide Safe;
      hide FailRun;
      StoreCall(trace, Failing(run, x.token, now));
      r := store.Fail(run, x.token, now);
      trace := trace + [Other(Failing(run, x.token, now))];
    }

    /** What follows once a run was begun: wait for the executor, then record what it made of it. */
    method Perform(run: Id, x: Execution, now: int, own: Id) returns (r: TickResult, ghost calls: seq<Move>)
      requires Valid()
      modifies this`workers, this`log, this`trace, store
      ensures Valid() && trace == old(trace) + calls && AllForeign(calls, own) && Doing(workers, own) == old(Doing(workers, own))
      ensures PerformsAs(old(trace), run, x, now, own, r, calls)
    {
      hide Valid;
      hide Doing;
      hide Others;
      hide Output;
      hide AllForeign;
      hide FailsAs;
      hide CompleteAnswer;
      ForeignNothing(own);
      Meanwhile(x.during, own);
      calls := Others(x.during, own);
      if x.result == Contended {
        var deferred := DeferStep(run, x.token, now);
        ForeignCall(calls, Deferring(run, x.token, DEFER_SECONDS, now), own);
        calls := calls + [Other(Deferring(run, x.token, DEFER_SECONDS, now))];
        return DeferredRun, calls;
      }
      var output := Output(x.result);
      var failed := output.Raised?;
      if output.Ok? && !x.leaseLost {
        var completed := CompleteStep(run, x, output.value.0, output.value.1, now);
        ForeignCall(calls, Completing(run, x.token, output.value.0, output.value.1, now), own);
        calls := calls + [Other(Completing(run, x.token, output.value.0, output.value.1, now))];
        failed := completed.Raised?;
      }
      if failed {
        ghost var more, done;
        done := calls;
        assert trace == old(trace) + done;
        r, more := FailAfterwards(run, x, now, own);
        ForeignAppend(calls, more, own);
        calls := calls + more;
        assert calls[..|done|] == done && calls[|done|..] == more;
        return;
      }
      return Executed, calls;
    }

    method FailAfterwards(run: Id, x: Execution, now: int, own: Id) returns (r: TickResult, ghost calls: seq<Move>)
      requires Valid()
      modifies this`workers, this`log, this`trace, store
      ensures Valid() && trace == old(trace) + calls && AllForeign(calls, own) && Doing(workers, own) == old(Doing(workers, own))
      ensures FailsAs(old(trace), run, x, now, own, r, calls)
    {
      hide Valid;
      hide Doing;
      hide Others;
      hide FailAnswer;
      Meanwhile(x.beforeFail, own);
      var recorded := FailStep(run, x, now);
      calls := Others(x.beforeFail, own) + [Other(Failing(run, x.token, now))];
      return if recorded.Raised? then Escaped else Executed, calls;
    }

    /** Begin the run that was claimed, and perform it. */
    method BeginAndPerform(run: Id, x: Execution, now: int, own: Id) returns (r: TickResult, ghost calls: seq<Move>)
      requires Valid()
      modifies this`workers, this`log, this`trace, store
      ensures Valid() && trace == old(trace) + calls && AllForeign(calls, own) && Doing(workers, own) == old(Doing(workers, own))
      ensures BeginsAs(old(trace), run, x, now, own, r, calls)
    {
      hide Valid;
      hide Doing;
      hide Others;
      hide AllForeign;
      hide PerformsAs;
      hide BeginAnswer;
      Meanwhile(x.beforeBegin, own);
      calls := Others(x.beforeBegin, own);
      var begun := BeginStep(run, x.token, x.executingUntil);
      ForeignCall(calls, Beginning(run, x.token, x.executingUntil), own);
      calls := calls + [Other(Beginning(run, x.token, x.executingUntil))];
      if !begun.value {
        return Idle, calls;
      }
      ghost var more, before;
      before := calls;
      assert trace == old(trace) + before;
      r, more := Perform(run, x, now, own);
      ForeignAppend(calls, more, own);
      calls := calls + more;
      assert calls[..|before|] == before && calls[|before|..] == more;
    }

    /** `_process_execution`: claim a run, begin it, and record what the executor made of it. `calls` are these store
        calls and what others do in between. */
    method Execute(x: Execution, now: int, own: Id) returns (r: TickResult, ghost calls: seq<Move>)
      requires Valid()
      modifies this`workers, this`log, this`trace, store
      ensures Valid() && trace == old(trace) + calls && AllForeign(calls, own) && Doing(workers, own) == old(Doing(workers, own))
      ensures ExecutesAs(old(trace), x, now, own, r, calls)
    {
      hide Valid;
      hide Doing;
      hide Others;
      hide AllForeign;
      hide BeginsAs;
      hide ClaimAnswer;
      ForeignNothing(own);
      ForeignCall([], ClaimingRun(x.pending, x.active, now, x.until, x.run, x.token), own);
      calls := [] + [Other(ClaimingRun(x.pending, x.active, now, x.until, x.run, x.token))];
      var claimed := ClaimStep(x, now);
      if claimed.Raised? {
        return Escaped, calls;
      }
      if claimed.value.None? {
        return Idle, calls;
      }
      ghost var more;
      r, more := BeginAndPerform(claimed.value.value, x, now, own);
      ForeignAppend(calls, more, own);
      calls := calls + more;
      assert calls[1..] == more;
    }

    // ----- Sending one delivery -----

    method RecoverStep(t: Tick) returns (r: Result<()>)
      requires Valid()
      modifies this`trace, store
      ensures Valid() && trace == old(trace) + [Other(Recovering(t.expired, t.unknown, t.now, pace))]
      ensures r == Answer(Recover(At(old(trace)), t.expired, t.unknown, t.now, pace))
    {
      hide Safe;
      hide Recover;
      StoreCall(trace, Recovering(t.expired, t.unknown, t.now, pace));
      r := store.RecoverExpired(t.expired, t.unknown, t.now, pace);
      trace := trace + [Other(Recovering(t.expired, t.unknown, t.now, pace))];
    }

    method ClaimFrame(t: Tick) returns (r: Result<Option<Frame>>)
      requires Valid() && Doing(workers, t.token) == None
      modifies this`workers, this`trace, store
      ensures Valid() && trace == old(trace) + [Claims(t.picks, t.now, t.until, t.token)]
      ensures r == Answer(ClaimDelivery(At(old(trace)), t.picks, t.now, t.until, t.token))
      ensures r.Ok? && r.value.Some? ==> Doing(workers, t.token) == Some(Attempt(r.value.value, Claimed))
      ensures !(r.Ok? && r.value.Some?) ==> workers == old(workers)
    {
      hide Safe;
      hide ClaimDelivery;
      OneMove(trace, Claims(t.picks, t.now, t.until, t.token));
      r := store.ClaimNext(t.picks, t.now, t.until, t.token);
      if r.Ok? && r.value.Some? {
        workers := workers[t.token := Attempt(r.value.value, Claimed)];
      }
      trace := trace + [Claims(t.picks, t.now, t.until, t.token)];
    }

    method AdmitFrame(f: Frame, token: Id, now: int) returns (r: Result<bool>)
      requires Valid() && Doing(workers, token) == Some(Attempt(f, Claimed))
      modifies this`workers, this`trace, store
      ensures Valid() && trace == old(trace) + [Admits(token, now)]
      ensures r == AdmitAnswer(old(trace), f, token, now) && r.Ok?
      ensures Doing(workers, token) == Some(Attempt(f, if r.value then Admitted else Done))
    {
      hide Safe;
      hide HoldsFrame;
      hide Admissible;
      OneMove(trace, Admits(token, now));
      r := store.Admit(f, token, now);
      workers := workers[token := Attempt(f, if r.value then Admitted else Done)];
      trace := trace + [Admits(token, now)];
    }

    /** The connector call; its result is up to the connector. */
    method SendFrame(f: Frame, token: Id, result: SendResult)
      requires Valid() && Doing(workers, token) == Some(Attempt(f, Admitted))
      modifies this`workers, this`log, this`trace
      ensures Valid() && log == old(log) + [Send(f, result)] && trace == old(trace) + [Sends(token, result)]
      ensures Doing(workers, token) == Some(Attempt(f, Sent(result)))
    {
      hide Safe;
      OneMove(trace, Sends(token, result));
      log := log + [Send(f, result)];
      workers := workers[token := Attempt(f, Sent(result))];
      trace := trace + [Sends(token, result)];
    }

    method ReportFrame(f: Frame, token: Id, result: SendResult, now: int) returns (r: Result<bool>)
      requires Valid() && Doing(workers, token) == Some(Attempt(f, Sent(result)))
      modifies this`workers, this`trace, store
      ensures Valid() && trace == old(trace) + [Reports(token, now, pace)]
      ensures Doing(workers, token) == Some(Attempt(f, Done))
    {
      hide Safe;
      hide FinishDelivery;
      hide FailDelivery;
      OneMove(trace, Reports(token, now, pace));
      match result {
        case Accepted => r := store.Finish(f, token, Delivered, now, pace);
        case Uncertain => r := store.Finish(f, token, Unknown, now, pace);
        case Rejected => r := store.FailSend(f, token, now, pace);
      }
      workers := workers[token := Attempt(f, Done)];
      trace := trace + [Reports(token, now, pace)];
    }

    /** After a refused admission `suppress_delivery` is called, which finds nothing on the wire to settle. */
    method SuppressFrame(f: Frame, token: Id, now: int) returns (r: Result<bool>)
      requires Valid() && Doing(workers, token) == Some(Attempt(f, Done))
      modifies store
      ensures Valid() && store.State() == old(store.State()) && r == Ok(false)
    {
      RefusedHoldsNothing(World(), f, token);
      hide Safe;
      hide HoldsFrame;
      r := store.Finish(f, token, Suppressed, now, 0);
    }

    /** Admit, send and report one claimed delivery, in this order, whatever others do in between. */
    method Deliver(t: Tick, f: Frame) returns (r: TickResult)
      requires Valid() && Doing(workers, t.token) == Some(Attempt(f, Claimed))
      modifies this`workers, this`log, this`trace, store
      ensures Valid() && trace == old(trace) + if OnTheWire(r) then SendingMoves(t, pace) else RefusedMoves(t)
      ensures OnTheWire(r) || r == SuppressedTick
      ensures Doing(workers, t.token) == Some(Attempt(f, Done))
      ensures SendsAs(old(trace), f, t, pace, r, if OnTheWire(r) then SendingMoves(t, pace) else RefusedMoves(t))
    {
      AppendDelivery(trace, t, pace);
      hide AdmitAnswer;
      hide Valid;
      hide Others;
      hide SendingMoves;
      hide RefusedMoves;
      Meanwhile(t.beforeAdmit, t.token);
      var admitted := AdmitFrame(f, t.token, t.now);
      if !admitted.value {
        Meanwhile(t.beforeSuppress, t.token);
        var suppressed := SuppressFrame(f, t.token, t.now);
        return SuppressedTick;
      }
      Meanwhile(t.beforeSend, t.token);
      SendFrame(f, t.token, t.sent);
      Meanwhile(t.beforeReport, t.token);
      var reported := ReportFrame(f, t.token, t.sent, t.now);
      return match t.sent case Accepted => DeliveredTick case Uncertain => UnknownTick case Rejected => FailedTick;
    }

    /** Without a delivery: wait for a turn, and execute a run. */
    method ExecuteInstead(t: Tick) returns (r: TickResult, ghost rest: seq<Move>)
      requires Valid()
      modifies this`workers, this`log, this`trace, store
      ensures Valid() && trace == old(trace) + rest
      ensures InsteadAs(old(trace), t, r, rest) && !OnTheWire(r) && r != SuppressedTick
    {
      hide Valid;
      hide Doing;
      hide Others;
      hide ExecutesAs;
      hide AllForeign;
      Meanwhile(t.beforeSecond, t.token);
      ghost var waited := Others(t.beforeSecond, t.token);
      assert trace == old(trace) + waited;
      r, rest := Execute(t.second, t.now, t.token);
      ExecutionResults(old(trace) + waited, t.second, t.now, t.token, r, rest);
      assert (waited + rest)[..|waited|] == waited && (waited + rest)[|waited|..] == rest;
      rest := waited + rest;
    }

    /** Without a preferred execution: send the next delivery, or else execute a run. */
    method DeliverOrExecute(t: Tick) returns (r: TickResult, ghost rest: seq<Move>)
      requires Valid() && Doing(workers, t.token) == None
      modifies this`workers, this`log, this`preferExecution, this`trace, store
      ensures Valid() && trace == old(trace) + [Claims(t.picks, t.now, t.until, t.token)] + rest
      ensures SendsOrExecutesAs(old(trace), t, pace, r, rest)
      ensures preferExecution == (old(preferExecution) || OnTheWire(r) || r == SuppressedTick)
    {
      hide Valid;
      hide Doing;
      hide SendingMoves;
      hide RefusedMoves;
      hide ClaimDelivery;
      hide SendsAs;
      hide InsteadAs;
      rest := [];
      var claimed := ClaimFrame(t);
      if claimed.Raised? {
        return Escaped, rest;
      }
      if claimed.value.Some? {
        preferExecution := true;
        r := Deliver(t, claimed.value.value);
        return r, if OnTheWire(r) then SendingMoves(t, pace) else RefusedMoves(t);
      }
      r, rest := ExecuteInstead(t);
    }

    /** What a tick does unless it prefers an execution and finds a run. */
    method GoOn(t: Tick) returns (r: TickResult, ghost rest: seq<Move>)
      requires Valid() && Doing(workers, t.token) == None
      modifies this`workers, this`log, this`preferExecution, this`trace, store
      ensures Valid() && trace == old(trace) + rest && GoesOnAs(old(trace), t, pace, r, rest)
      ensures preferExecution == (old(preferExecution) || OnTheWire(r) || r == SuppressedTick)
    {
      hide Valid;
      hide Doing;
      hide Others;
      hide SendsOrExecutesAs;
      Meanwhile(t.beforeClaim, t.token);
      ghost var more;
      r, more := DeliverOrExecute(t);
      rest := Others(t.beforeClaim, t.token) + [Claims(t.picks, t.now, t.until, t.token)] + more;
      GoesOn(old(trace), t, pace, r, more);
    }

    /** What a tick does after recovery. */
    method AfterRecovery(t: Tick) returns (r: TickResult, ghost found: TickResult, ghost first: seq<Move>, ghost rest: seq<Move>)
      requires Valid() && Doing(workers, t.token) == None
      modifies this`workers, this`log, this`preferExecution, this`trace, store
      ensures Valid() && trace == old(trace) + first + rest
      ensures TicksAs(old(trace), old(preferExecution), t, pace, r, found, first, rest, preferExecution)
    {
      hide Valid;
      hide Doing;
      hide ExecutesAs;
      hide GoesOnAs;
      found, first, rest := Idle, [], [];
      if preferExecution {
        r, first := Execute(t.first, t.now, t.token);
        found := r;
        if r == Escaped {
          return;
        }
        if r != Idle {
          preferExecution := false;
          return;
        }
      }
      assert trace == old(trace) + first;
      r, rest := GoOn(t);
    }

    /** `process_next`: recovery first; then, if executions are preferred, one of those, and if it found a run or failed
        that is all; otherwise the next delivery, or else an execution. Deliveries make the next tick prefer executions,
        and an execution takes that back. Others may make any moves between any two steps. */
    method ProcessNext(t: Tick) returns (r: TickResult, ghost found: TickResult, ghost first: seq<Move>, ghost rest: seq<Move>)
      requires Valid() && Doing(workers, t.token) == None
      modifies this`workers, this`log, this`preferExecution, this`trace, store
      ensures Valid()
      ensures var recovery := [Other(Recovering(t.expired, t.unknown, t.now, pace))]; var recovered := recovery + Others(t.afterRecovery, t.token);
        if Recover(At(old(trace)), t.expired, t.unknown, t.now, pace).Aborted? then
          r == Escaped && trace == old(trace) + recovery && preferExecution == old(preferExecution)
        else
          trace == old(trace) + recovered + first + rest && TicksAs(old(trace) + recovered, old(preferExecution), t, pace, r, found, first, rest, preferExecution)
    {
      hide Valid;
      hide Doing;
      hide Others;
      hide TicksAs;
      hide Recover;
      hide At;
      hide AllForeign;
      hide OnTheWire;
      found, first, rest := Idle, [], [];
      ghost var recovered := [Other(Recovering(t.expired, t.unknown, t.now, pace))] + Others(t.afterRecovery, t.token);
      var recovery := RecoverStep(t);
      if recovery.Raised? {
        return Escaped, found, first, rest;
      }
      Meanwhile(t.afterRecovery, t.token);
      assert trace == old(trace) + recovered;
      r, found, first, rest := AfterRecovery(t);
    }
  }

  /** A preferred execution that finds a run or fails is all; otherwise the tick goes on with the next delivery. `found` is
      what the preferred execution came to, and `prefers` whether the next tick prefers one. */
  ghost predicate TicksAs(before: seq<Move>, preferred: bool, t: Tick, pace: nat, r: TickResult, found: TickResult, first: seq<Move>, rest: seq<Move>, prefers: bool) {
    && (preferred ==> ExecutesAs(before, t.first, t.now, t.token, found, first))
    && (!preferred ==> found == Idle && first == [])
    && if found != Idle then r == found && rest == [] && prefers == (r == Escaped)
       else GoesOnAs(before + first, t, pace, r, rest) && prefers == (preferred || OnTheWire(r) || r == SuppressedTick)
  }

  /** Others have their turn, the claim is made, and what it answers is followed. */
  ghost predicate GoesOnAs(before: seq<Move>, t: Tick, pace: nat, r: TickResult, calls: seq<Move>) {
    var claim := Others(t.beforeClaim, t.token) + [Claims(t.picks, t.now, t.until, t.token)];
    |claim| <= |calls| && calls[..|claim|] == claim && SendsOrExecutesAs(before + Others(t.beforeClaim, t.token), t, pace, r, calls[|claim|..])
  }

  lemma GoesOn(before: seq<Move>, t: Tick, pace: nat, r: TickResult, more: seq<Move>)
    requires SendsOrExecutesAs(before + Others(t.beforeClaim, t.token), t, pace, r, more)
    ensures GoesOnAs(before, t, pace, r, Others(t.beforeClaim, t.token) + [Claims(t.picks, t.now, t.until, t.token)] + more)
  {
    hide Others;
    hide SendsOrExecutesAs;
    var claim := Others(t.beforeClaim, t.token) + [Claims(t.picks, t.now, t.until, t.token)];
    assert (claim + more)[..|claim|] == claim && (claim + more)[|claim|..] == more;
  }

  /** An execution never ends like a delivery. */
  lemma ExecutionResults(before: seq<Move>, x: Execution, now: int, own: Id, r: TickResult, calls: seq<Move>)
    requires ExecutesAs(before, x, now, own, r, calls)
    ensures r == Idle || r == Executed || r == DeferredRun || r == Escaped
  {
    hide Others;
    hide ClaimAnswer;
    hide CompleteAnswer;
    hide FailAnswer;
    hide BeginRun;
    hide Output;
  }

  lemma BeginCommits(l: Ledger, run: Id, token: Id, until: int)
    ensures BeginRun(l, run, token, until).Committed?
  {
    hide Holds;
  }

  lemma DeferCommits(l: Ledger, run: Id, token: Id, now: int)
    ensures DeferRun(l, run, token, DEFER_SECONDS, now).Committed?
  {
    hide Holds;
  }

  /** What a worker is doing, if there is one. */
  function Doing(workers: map<Id, Attempt>, token: Id): Option<Attempt> {
    if token in workers then Some(workers[token]) else None
  }

  lemma ForeignKeeps(w: World, m: Move, own: Id)
    requires SchedulesValid(w.ledger) && Foreign(m, own)
    ensures Doing(Next(w, m).workers, own) == Doing(w.workers, own)
  {
    hide ClaimDelivery;
    hide AdmitDelivery;
    hide Report;
    hide Apply;
  }

  lemma ForeignNothing(own: Id)
    ensures AllForeign([], own)
  {
  }

  lemma ForeignCall(moves: seq<Move>, e: Event, own: Id)
    requires AllForeign(moves, own)
    ensures AllForeign(moves + [Other(e)], own)
  {
  }

  lemma ForeignAppend(a: seq<Move>, b: seq<Move>, own: Id)
    requires AllForeign(a, own) && AllForeign(b, own)
    ensures AllForeign(a + b, own)
  {
  }

  /** Appending the moves of a delivery one part at a time. */
  lemma AppendDelivery(trace: seq<Move>, t: Tick, pace: nat)
    ensures trace + Others(t.beforeAdmit, t.token) + [Admits(t.token, t.now)] + Others(t.beforeSuppress, t.token) == trace + RefusedMoves(t)
    ensures trace + Others(t.beforeAdmit, t.token) + [Admits(t.token, t.now)] + Others(t.beforeSend, t.token) + [Sends(t.token, t.sent)]
            + Others(t.beforeReport, t.token) + [Reports(t.token, t.now, pace)] == trace + SendingMoves(t, pace)
  {
    hide Others;
  }

  /** One more move of a history. */
  lemma OneMove(trace: seq<Move>, m: Move)
    requires Safe(START)
    ensures var w := Unfold(START, trace); Safe(w) && SchedulesValid(w.ledger) && Safe(Next(w, m)) && Unfold(START, trace + [m]) == Next(w, m)
  {
    hide Safe;
    SafeSchedules(Unfold(START, trace));
    NextSafe(Unfold(START, trace), m);
    UnfoldMore(START, trace, m);
  }

  lemma {:induction false} UnfoldMore(w: World, moves: seq<Move>, m: Move)
    requires Safe(w) && SchedulesValid(Unfold(w, moves).ledger)
    ensures Unfold(w, moves + [m]) == Next(Unfold(w, moves), m)
    decreases |moves|
  {
    hide Safe;
    hide Next;
    SafeSchedules(w);
    if moves == [] {
      NextSafe(w, m);
      assert ([] + [m])[1..] == [];
      assert Unfold(Next(w, m), []) == Next(w, m);
    } else {
      NextSafe(w, moves[0]);
      assert (moves + [m])[1..] == moves[1..] + [m] && (moves + [m])[0] == moves[0];
      UnfoldMore(Next(w, moves[0]), moves[1..], m);
    }
  }

  /** A worker that was refused admission does not hold its delivery on the wire. */
  lemma RefusedHoldsNothing(w: World, f: Frame, token: Id)
    requires Safe(w) && token in w.workers && w.workers[token] == Attempt(f, Done)
    ensures !HoldsFrame(w.ledger, f, token, Sending)
  {
    if f in w.ledger.deliveries {
      assert Accounted(w, f, w.ledger.deliveries[f]);
    }
  }

  lemma OtherIsCall(w: World, e: Event)
    requires SchedulesValid(w.ledger) && !WorkerCall(e)
    ensures Next(w, Other(e)) == w.(ledger := Apply(w.ledger, e))
  {
    hide Apply;
  }

  /** One store call by this lane or another is one more move. */
  lemma StoreCall(trace: seq<Move>, e: Event)
    requires Safe(START) && !WorkerCall(e)
    ensures var w := Unfold(START, trace);
      && SchedulesValid(w.ledger) && Unfold(START, trace + [Other(e)]) == w.(ledger := Apply(w.ledger, e))
  {
    hide *;
    OneMove(trace, Other(e));
    OtherIsCall(Unfold(START, trace), e);
  }

  lemma SafeSchedules(w: World)
    requires Safe(w)
    ensures SchedulesValid(w.ledger)
  {
    hide Protocol;
    hide Ordered;
  }
}
