/** One scheduled run through the automation lane of a chat: reserve a generation, follow its events while other
    calls keep arriving, and release it on every path. */
module AutomationLane {
  import opened Wrappers
  import opened Generations
  import opened GenerationInvariant
  import opened GenerationHistory
  import opened GenerationStore

  datatype CompletionStatus = Finished | Partly | NeedsApproval | Unusable

  datatype LaneEvent = FrameEvent(text: string) | StaleEvent(current: nat) | ErrorEvent | CompletedEvent(status: CompletionStatus) | OtherEvent

  datatype LaneOutcome = SucceededRun | PartialRun | ApprovalRun

  /** What the lane sees next: calls others made meanwhile, whether the run still holds its lease, and an event. */
  datatype LaneTurn = LaneTurn(others: seq<Event>, runCurrent: bool, event: LaneEvent)

  datatype LaneResult = Busy | Delivered(outcome: LaneOutcome, frames: seq<string>) | Deferred | Broken

  function FrameTexts(turns: seq<LaneTurn>): seq<string>
    decreases |turns|
  {
    if turns == [] then []
    else
      var last := turns[|turns| - 1];
      FrameTexts(turns[..|turns| - 1]) + if last.event.FrameEvent? then [last.event.text] else []
  }

  /** The outcome a run is given for the status its turn completed with. */
  predicate Reports(status: CompletionStatus, outcome: LaneOutcome) {
    && (status.Finished? ==> outcome.SucceededRun?) && (status.Partly? ==> outcome.PartialRun?) && (status.NeedsApproval? ==> outcome.ApprovalRun?)
    && !status.Unusable?
  }

  /** The events up to this one neither ended the turn nor found the run replaced. */
  predicate GoesOn(turns: seq<LaneTurn>, n: nat) {
    n <= |turns| && forall i | 0 <= i < n :: turns[i].runCurrent && (turns[i].event.FrameEvent? || turns[i].event.OtherEvent?)
  }

  /** The turn completed here, and was reported as such. */
  predicate CompletesAt(turns: seq<LaneTurn>, n: nat, outcome: LaneOutcome, frames: seq<string>) {
    && n < |turns| && GoesOn(turns, n) && turns[n].runCurrent && turns[n].event.CompletedEvent? && Reports(turns[n].event.status, outcome)
    && frames == FrameTexts(turns[..n])
  }

  /** How following the events ended, before anything is released. */
  datatype Ending = Returned(outcome: LaneOutcome) | RaisedDeferred | RaisedOther

  /** One store call by others: any call there is. */
  method Interfere(store: OnboardingStore, e: Event)
    requires Inv(store.State())
    modifies store
    ensures Inv(store.State())
    ensures store.State() == Apply(old(store.State()), if e.Enqueuing? then e.(debounce := store.debounce) else e)
  {
    ApplyKeeps(store.State(), if e.Enqueuing? then e.(debounce := store.debounce) else e);
    hide Inv;
    if e.CleaningUp? || e.ReservingFrame? || e.SettlingFrame? {
      InterfereFrames(store, e);
    } else if e.ClaimingControl? || e.CompletingControl? || e.RetryingControl? || e.ResettingControls? {
      InterfereControls(store, e);
    } else {
      InterfereTurns(store, e);
    }
    hide Apply;
  }

  method InterfereTurns(store: OnboardingStore, e: Event)
    requires e.Enqueuing? || e.ReservingAutomation? || e.ClaimingWork? || e.CompletingGen? || e.FailingGen? || e.RecoveringGens?
    modifies store
    ensures store.State() == Apply(old(store.State()), if e.Enqueuing? then e.(debounce := store.debounce) else e)
  {
    hide Enqueue;
    hide ReserveAutomation;
    hide ClaimWork;
    hide CompleteGen;
    hide FailGen;
    hide RecoverGens;
    match e {
      case Enqueuing(update, chat, kind, now, _) => var _ := store.Receive(update, chat, kind, now);
      case ReservingAutomation(chat, run, now) => var _ := store.Reserve(chat, run, now);
      case ClaimingWork(chat, rows, now) => var _ := store.Claim(chat, rows, now);
      case CompletingGen(id, revision) => var _ := store.Complete(id, revision);
      case FailingGen(id, maxAttempts, minimum, now) => var _ := store.Fail(id, maxAttempts, minimum, now);
      case RecoveringGens(ids, now) => var _ := store.Recover(ids, now);
    }
  }

  method InterfereFrames(store: OnboardingStore, e: Event)
    requires e.CleaningUp? || e.ReservingFrame? || e.SettlingFrame?
    modifies store
    ensures store.State() == Apply(old(store.State()), e)
  {
    hide CleanUp;
    hide ReserveFrame;
    hide SettleFrame;
    match e {
      case CleaningUp(id) => var _ := store.FinishCleanup(id);
      case ReservingFrame(id, revision, sequence) => var _ := store.ReserveSlot(id, revision, sequence);
      case SettlingFrame(slot, status) =>
        if status != Reserved {
          var _ := store.Settle(slot, status);
        }
    }
  }

  method InterfereControls(store: OnboardingStore, e: Event)
    requires e.ClaimingControl? || e.CompletingControl? || e.RetryingControl? || e.ResettingControls?
    modifies store
    ensures store.State() == Apply(old(store.State()), e)
  {
    hide ClaimControl;
    hide CompleteControl;
    hide RetryControl;
    hide ResetControls;
    match e {
      case ClaimingControl(update, now) => var _ := store.StartControl(update, now);
      case CompletingControl(update) => store.FinishControl(update);
      case RetryingControl(update, now) => store.PutOffControl(update, now);
      case ResettingControls(now) => store.TakeBackControls(now);
    }
  }

  method Meanwhile(store: OnboardingStore, events: seq<Event>)
    requires Inv(store.State())
    modifies store
    ensures Inv(store.State())
  {
    hide Inv;
    for i := 0 to |events|
      invariant Inv(store.State())
    {
      Interfere(store, events[i]);
    }
  }

  method FailOne(store: OnboardingStore, id: GenId, maxAttempts: Option<nat>, minimum: Option<nat>, now: int)
    requires Inv(store.State())
    modifies store
    ensures Inv(store.State()) && !Running(store.State(), id)
  {
    ghost var s := store.State();
    FailStops(s, id, maxAttempts, minimum, now);
    FailingIsCall(s, id, maxAttempts, minimum, now);
    hide Inv;
    hide Apply;
    hide FailGen;
    hide Running;
    ApplyKeeps(s, FailingGen(id, maxAttempts, minimum, now));
    var _ := store.Fail(id, maxAttempts, minimum, now);
  }

  lemma FailStops(s: Store, id: GenId, maxAttempts: Option<nat>, minimum: Option<nat>, now: int)
    ensures !Running(After(s, FailGen(s, id, maxAttempts, minimum, now)), id)
  {
    hide BurstAttempts;
    hide RetryDelay;
  }

  lemma CompleteStops(s: Store, id: GenId, revision: nat)
    ensures var r := CompleteGen(s, id, revision); r.Committed? && (r.value ==> id in r.store.gens && r.store.gens[id].status == Done)
  {
  }

  /** The generation is active under the revision it was reserved with. */
  predicate Leads(s: Store, id: GenId, revision: nat) {
    Running(s, id) && s.gens[id].revision == revision
  }

  /** The loop over the events of the dispatched turn. */
  method Follow(store: OnboardingStore, id: GenId, revision: nat, turns: seq<LaneTurn>, runCurrent: bool, now: int) returns (ending: Ending, frames: seq<string>, ghost seen: nat)
    requires Inv(store.State())
    modifies store
    ensures Inv(store.State()) && seen <= |turns| && frames == FrameTexts(turns[..seen])
    ensures ending.Returned? ==>
      && !Running(store.State(), id) && id in store.gens && store.gens[id].status == Done
      && |frames| <= 3 && (ending.outcome != ApprovalRun ==> frames != []) && CompletesAt(turns, seen, ending.outcome, frames)
    ensures ending.RaisedDeferred? && GoesOn(turns, seen) && seen < |turns| && turns[seen].runCurrent && turns[seen].event.StaleEvent? ==> !Leads(store.State(), id, revision)
  {
    hide Inv;
    frames, seen := [], 0;
    for i := 0 to |turns|
      invariant Inv(store.State()) && |frames| <= 3 && seen == i && frames == FrameTexts(turns[..i]) && GoesOn(turns, i)
    {
      var t := turns[i];
      assert turns[..i + 1][..i] == turns[..i];
      Meanwhile(store, t.others);
      if !(Leads(store.State(), id, revision) && t.runCurrent) {
        return if t.runCurrent then RaisedDeferred else RaisedOther, frames, seen;
      }
      match t.event {
        case FrameEvent(text) =>
          frames := frames + [text];
          if |frames| > 3 {
            return RaisedOther, frames, i + 1;
          }
        case StaleEvent(current) =>
          FailOne(store, id, None, Some(current + 1), now);
          return RaisedDeferred, frames, seen;
        case ErrorEvent => return RaisedOther, frames, seen;
        case CompletedEvent(status) =>
          if status == Unusable || (status != NeedsApproval && frames == []) {
            return RaisedOther, frames, seen;
          }
          ApplyKeeps(store.State(), CompletingGen(id, revision));
          CompleteStops(store.State(), id, revision);
          hide CompleteGen;
          var done := store.Complete(id, revision);
          if !done {
            return RaisedDeferred, frames, seen;
          }
          return Returned(match status case Finished => SucceededRun case Partly => PartialRun case _ => ApprovalRun), frames, seen;
        case OtherEvent =>
      }
      seen := i + 1;
    }
    var active := Leads(store.State(), id, revision) && runCurrent;
    return if !active && runCurrent then RaisedDeferred else RaisedOther, frames, seen;
  }

  /** `execute_cron_claim`: whatever happens, the reserved generation is not left active; frames are returned only
      when this very call completed the generation, and are those streamed before the event that completed the turn, at
      most three, with the outcome that event stands for. */
  method ExecuteClaim(store: OnboardingStore, chat: Chat, run: RunId, turns: seq<LaneTurn>, runCurrent: bool, late: seq<Event>, now: int) returns (r: LaneResult, reserved: Option<GenId>)
    requires Inv(store.State())
    modifies store
    ensures Inv(store.State())
    ensures reserved.Some? ==> !Running(store.State(), reserved.value)
    ensures r == Busy ==> store.State() == old(store.State())
    ensures r.Delivered? ==>
      && reserved.Some? && reserved.value in store.gens && store.gens[reserved.value].status == Done
      && |r.frames| <= 3 && (r.outcome != ApprovalRun ==> r.frames != [])
      && exists k: nat :: CompletesAt(turns, k, r.outcome, r.frames)
  {
    hide Inv;
    ghost var s := store.State();
    ApplyKeeps(s, ReservingAutomation(chat, run, now));
    ReservesAutomation(s, chat, run, now);
    hide ReserveAutomation;
    var reservation := store.Reserve(chat, run, now);
    if reservation.Raised? {
      return Broken, None;
    }
    if reservation.value.None? {
      return Busy, None;
    }
    var id := reservation.value.value;
    reserved := Some(id);
    var revision := id.revision;
    var ending, frames, seen := Follow(store, id, revision, turns, runCurrent, now);
    match ending {
      case Returned(outcome) => return Delivered(outcome, frames), reserved;
      case RaisedDeferred =>
        Meanwhile(store, late);
        if Leads(store.State(), id, revision) {
          FailOne(store, id, None, None, now);
        } else {
          RevisionIsFixed(store.State(), id, revision);
        }
        return Deferred, reserved;
      case RaisedOther =>
        Meanwhile(store, late);
        FailOne(store, id, Some(1), None, now);
        return Broken, reserved;
    }
  }

  lemma ReservesAutomation(s: Store, chat: Chat, run: RunId, now: int)
    ensures var r := ReserveAutomation(s, chat, run, now);
      r.Committed? ==> (r.value.None? ==> r.store == s) && (r.value.Some? ==> r.value.value.Automation?)
  {
    hide NextRevision;
  }

  /** The revision of an automation generation is part of its name. */
  lemma RevisionIsFixed(s: Store, id: GenId, revision: nat)
    requires Inv(s) && id.Automation? && id.revision == revision
    ensures Running(s, id) ==> s.gens[id].revision == revision
  {
    assert Running(s, id) ==> NameFits(s, id, s.gens[id]);
  }
}
