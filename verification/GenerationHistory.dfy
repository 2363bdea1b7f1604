/** Whole histories of the chat tables: any sequence of store calls, from empty tables. */
module GenerationHistory {
  import opened Wrappers
  import opened Generations
  import opened GenerationInvariant

  datatype Event =
    | Enqueuing(update: UpdateId, chat: Chat, kind: Kind, now: int, debounce: int)
    | ReservingAutomation(chat: Chat, run: RunId, now: int)
    | ClaimingWork(chat: Chat, rows: seq<UpdateId>, now: int)
    | CompletingGen(id: GenId, revision: nat)
    | FailingGen(id: GenId, maxAttempts: Option<nat>, minimum: Option<nat>, now: int)
    | RecoveringGens(ids: seq<GenId>, now: int)
    | CleaningUp(id: GenId)
    | ClaimingControl(update: UpdateId, now: int)
    | CompletingControl(update: UpdateId)
    | RetryingControl(update: UpdateId, now: int)
    | ResettingControls(now: int)
    | ReservingFrame(id: GenId, revision: nat, sequence: nat)
    | SettlingFrame(slot: Slot, status: EventStatus)

  ghost function Apply(s: Store, e: Event): Store {
    match e
    case Enqueuing(update, chat, kind, now, debounce) => After(s, Enqueue(s, update, chat, kind, now, debounce))
    case ReservingAutomation(chat, run, now) => After(s, ReserveAutomation(s, chat, run, now))
    case ClaimingWork(chat, rows, now) => After(s, ClaimWork(s, chat, rows, now))
    case CompletingGen(id, revision) => After(s, CompleteGen(s, id, revision))
    case FailingGen(id, maxAttempts, minimum, now) => After(s, FailGen(s, id, maxAttempts, minimum, now))
    case RecoveringGens(ids, now) => After(s, RecoverGens(s, ids, now))
    case CleaningUp(id) => After(s, CleanUp(s, id))
    case ClaimingControl(update, now) => After(s, ClaimControl(s, update, now))
    case CompletingControl(update) => CompleteControl(s, update)
    case RetryingControl(update, now) => RetryControl(s, update, now)
    case ResettingControls(now) => ResetControls(s, now)
    case ReservingFrame(id, revision, sequence) => After(s, ReserveFrame(s, id, revision, sequence))
    case SettlingFrame(slot, status) => if status == Reserved then s else After(s, SettleFrame(s, slot, status))
  }

  predicate AsideEvent(e: Event) {
    e.CleaningUp? || e.ClaimingControl? || e.CompletingControl? || e.RetryingControl? || e.ResettingControls?
    || e.ReservingFrame? || e.SettlingFrame? || (e.Enqueuing? && e.kind == Control)
  }

  ghost predicate ControlsKept(s: Store) {
    && (forall u | u in s.inbox && s.inbox[u].kind == Control :: s.inbox[u].burst.None?)
    && (forall u | u in s.inbox && s.inbox[u].status == Processing :: s.inbox[u].kind == Control)
  }

  lemma StaysAside(s: Store)
    requires ControlsKept(s)
    ensures Aside(s, s)
  {
  }

  lemma SetControlAside(s: Store, update: UpdateId, row: Update)
    requires update in s.inbox ==> s.inbox[update].kind == Control
    requires row.kind == Control && row.burst.None?
    requires ControlsKept(s)
    ensures Aside(s, SetUpdate(s, update, row))
  {
  }

  lemma ControlEventsKeep(s: Store, e: Event)
    requires ControlsKept(s) && OneControl(s)
    requires e.ClaimingControl? || e.CompletingControl? || e.RetryingControl? || (e.Enqueuing? && e.kind == Control)
    ensures Aside(s, Apply(s, e)) && OneControl(Apply(s, e))
  {
    hide ControlDelay;
    StaysAside(s);
    hide Aside;
    match e {
      case Enqueuing(update, chat, _, now, _) =>
        if update !in s.inbox {
          SetControlAside(s, update, Update(chat, Control, Pending, 0, now, None));
        }
      case ClaimingControl(update, now) =>
        if ControlReady(s, update, now) {
          SetControlAside(s, update, s.inbox[update].(status := Processing, attempts := s.inbox[update].attempts + 1));
        }
      case CompletingControl(update) =>
        if InProgress(s, update) {
          SetControlAside(s, update, s.inbox[update].(status := Completed));
        }
      case RetryingControl(update, now) =>
        if InProgress(s, update) {
          SetControlAside(s, update, s.inbox[update].(status := Pending, availableAt := now + ControlDelay(s.inbox[update].attempts)));
        }
    }
  }

  lemma ResetKeeps(s: Store, now: int)
    requires ControlsKept(s) && OneControl(s)
    ensures Aside(s, ResetControls(s, now)) && OneControl(ResetControls(s, now))
  {
  }

  lemma CleanUpKeeps(s: Store, id: GenId)
    requires ControlsKept(s) && OneControl(s)
    ensures Aside(s, After(s, CleanUp(s, id))) && OneControl(After(s, CleanUp(s, id)))
  {
  }

  lemma EventsAside(s: Store, events: map<Slot, EventStatus>)
    requires ControlsKept(s) && OneControl(s)
    ensures Aside(s, s.(events := events)) && OneControl(s.(events := events))
  {
  }

  lemma FrameEventsKeep(s: Store, e: Event)
    requires ControlsKept(s) && OneControl(s) && (e.CleaningUp? || e.ReservingFrame? || e.SettlingFrame?)
    ensures Aside(s, Apply(s, e)) && OneControl(Apply(s, e))
  {
    hide Aside;
    hide OneControl;
    hide ControlsKept;
    hide Running;
    if e.CleaningUp? {
      hide CleanUp;
      CleanUpKeeps(s, e.id);
    } else {
      EventsAside(s, Apply(s, e).events);
      assert Apply(s, e) == s.(events := Apply(s, e).events);
    }
  }

  lemma AsideEventsKeep(s: Store, e: Event)
    requires MessagesKept(s) && OneControl(s) && AsideEvent(e)
    ensures Aside(s, Apply(s, e)) && OneControl(Apply(s, e))
  {
    ControlRows(s);
    hide MessagesKept;
    hide Aside;
    hide OneControl;
    if e.CleaningUp? || e.ReservingFrame? || e.SettlingFrame? {
      FrameEventsKeep(s, e);
      hide Apply;
    } else if e.ResettingControls? {
      hide ResetControls;
      ResetKeeps(s, e.now);
    } else {
      hide Apply;
      ControlEventsKeep(s, e);
    }
  }

  lemma TurnEventsKeep(s: Store, e: Event)
    requires Inv(s) && !AsideEvent(e)
    ensures Inv(Apply(s, e))
  {
    InvParts(s);
    hide Inv;
    hide TurnInv;
    match e
    case Enqueuing(update, chat, _, now, debounce) =>
      if update !in s.inbox {
        EnqueueArrives(s, update, chat, now, debounce);
        hide Arrived;
        hide Enqueue;
        ArrivedKeeps(s, Apply(s, e), update, chat);
      }
    case ReservingAutomation(chat, run, now) =>
      AutomationStarts(s, chat, run, now);
      hide Started;
      var r := ReserveAutomation(s, chat, run, now);
      if r.Committed? && r.value.Some? {
        StartedKeeps(s, r.store, r.value.value, chat);
      }
    case ClaimingWork(chat, rows, now) =>
      ClaimStarts(s, chat, rows, now);
      hide Started;
      hide ClaimWork;
      var r := ClaimWork(s, chat, rows, now);
      if r.Committed? && r.value.Some? {
        StartedKeeps(s, r.store, r.value.value, chat);
      }
    case CompletingGen(id, revision) =>
      if Running(s, id) && s.gens[id].revision == revision {
        CompleteReleases(s, id, revision);
        hide Released;
        hide CompleteGen;
        ReleasedKeeps(s, Apply(s, e), id, true);
      }
    case FailingGen(id, maxAttempts, minimum, now) =>
      if Running(s, id) {
        FailReleases(s, id, maxAttempts, minimum, now);
        hide Released;
        hide FailGen;
        ReleasedKeeps(s, Apply(s, e), id, maxAttempts.Some? && BurstAttempts(s, s.gens[id].burst) >= maxAttempts.value);
      }
    case RecoveringGens(ids, now) =>
      InterruptAllKeeps(s, ids, now);
      hide InterruptAll;
  }

  /** Every store call keeps the invariant. */
  lemma ApplyKeeps(s: Store, e: Event)
    requires Inv(s)
    ensures Inv(Apply(s, e))
  {
    InvParts(s);
    if AsideEvent(e) {
      AsideEventsKeep(s, e);
      hide *;
      AsideKeeps(s, Apply(s, e));
    } else {
      hide *;
      TurnEventsKeep(s, e);
    }
  }

  lemma FailingIsCall(s: Store, id: GenId, maxAttempts: Option<nat>, minimum: Option<nat>, now: int)
    ensures Apply(s, FailingGen(id, maxAttempts, minimum, now)) == After(s, FailGen(s, id, maxAttempts, minimum, now))
  {
    hide FailGen;
  }

  ghost function Play(s: Store, events: seq<Event>): (s': Store)
    requires Inv(s)
    ensures Inv(s')
    decreases |events|
  {
    if events == [] then s
    else
      ApplyKeeps(s, events[0]);
      Play(Apply(s, events[0]), events[1..])
  }

  /** In every reachable state a chat's pointer names exactly its active generation: there is at most one, and it
      runs under the chat's current revision. */
  lemma OneActiveGeneration(events: seq<Event>, chat: Chat)
    ensures Inv(EMPTY)
    ensures var s := Play(EMPTY, events);
      forall g :: (Running(s, g) && s.gens[g].chat == chat) <==> HoldsTurn(s, chat, g)
  {
    assert Inv(EMPTY);
    InvParts(Play(EMPTY, events));
    hide Play;
    hide Inv;
    hide TurnInv;
  }

  /** Every generation a call creates has a larger revision than all earlier ones of its chat. */
  lemma RevisionsGrow(s: Store, e: Event, id: GenId)
    requires Inv(s) && id !in s.gens && id in Apply(s, e).gens
    ensures var s' := Apply(s, e);
      && s'.gens[id].status == Active && HoldsTurn(s', s'.gens[id].chat, id)
      && forall g | g in s.gens && s.gens[g].chat == s'.gens[id].chat :: s.gens[g].revision < s'.gens[id].revision
  {
    InvParts(s);
    if AsideEvent(e) {
      AsideEventsKeep(s, e);
      hide *;
      AsideAddsNothing(s, Apply(s, e));
    } else {
      hide Inv;
      hide TurnInv;
      match e
      case ReservingAutomation(chat, run, now) => AutomationStarts(s, chat, run, now);
      case ClaimingWork(chat, rows, now) =>
        ClaimStarts(s, chat, rows, now);
        hide ClaimWork;
      case RecoveringGens(ids, now) => InterruptKeepsIds(s, ids, now);
      case _ =>
    }
  }

  lemma AsideAddsNothing(s: Store, s': Store)
    requires Aside(s, s')
    ensures s'.gens.Keys == s.gens.Keys
  {
  }

  lemma {:induction false} InterruptKeepsIds(s: Store, rows: seq<GenId>, now: int)
    ensures InterruptAll(s, rows, now).gens.Keys == s.gens.Keys
    decreases |rows|
  {
    if rows != [] {
      InterruptKeepsIds(Interrupt(s, rows[0], now), rows[1..], now);
    }
  }

  // ----- Messages -----

  /** Completing a generation closes exactly the messages it was given, and all of them. */
  lemma CompletionClosesItsInputs(s: Store, id: GenId, revision: nat)
    requires Inv(s) && id.Interactive? && Running(s, id) && s.gens[id].revision == revision
    ensures var s' := After(s, CompleteGen(s, id, revision));
      && id in s.inputs && s'.inbox.Keys == s.inbox.Keys
      && forall u | u in s.inbox ::
           s'.inbox[u] == if u in s.inputs[id] then s.inbox[u].(status := Completed) else s.inbox[u]
  {
    InvParts(s);
    hide Inv;
    forall u | u in s.inbox ensures u in s.inputs[id] <==> InBurst(s, u, s.gens[id].burst) {}
    CompleteReleases(s, id, revision);
    hide CompleteGen;
  }

  /** Completing an automation generation closes no message. */
  lemma AutomationClosesNothing(s: Store, id: GenId, revision: nat)
    requires Inv(s) && id.Automation?
    ensures After(s, CompleteGen(s, id, revision)).inbox == s.inbox
  {
    InvParts(s);
    if Running(s, id) {
      assert NameFits(s, id, s.gens[id]);
      assert forall u | u in s.inbox :: RowKept(s, s.inbox[u]);
    }
    hide Inv;
  }

  /** No message is an input of two completed generations. */
  lemma AnsweredAtMostOnce(events: seq<Event>, u: UpdateId, g: GenId, h: GenId)
    ensures Inv(EMPTY)
    ensures var s := Play(EMPTY, events);
      (g in s.inputs && h in s.inputs && u in s.inputs[g] && u in s.inputs[h] && g in s.gens && h in s.gens && s.gens[g].status == Done && s.gens[h].status == Done) ==> g == h
  {
    assert Inv(EMPTY);
    InvParts(Play(EMPTY, events));
    hide Play;
    hide Inv;
    hide TurnInv;
    hide NothingLost;
  }

  /** Every message is either waiting in the open burst of its chat, or was the input of a generation that
      completed or terminally failed. */
  lemma MessagesAreConserved(events: seq<Event>, u: UpdateId)
    ensures Inv(EMPTY)
    ensures var s := Play(EMPTY, events);
      u in s.inbox && s.inbox[u].kind == Message ==>
        || (s.inbox[u].burst.Some? && Waits(s, u, s.inbox[u].chat, s.inbox[u].burst.value) && OpenBurst(s, s.inbox[u].chat, s.inbox[u].burst.value))
        || (s.inbox[u].status == Completed && exists g :: GivenTo(s, u, g))
  {
    assert Inv(EMPTY);
    var s := Play(EMPTY, events);
    InvParts(s);
    hide Play;
    hide Inv;
    hide TurnInv;
    assert u in s.inbox ==> RowKept(s, s.inbox[u]);
  }

  /** Whenever a chat can be claimed and has messages waiting, the claim hands over exactly all of them. */
  lemma ClaimHandsOverEverything(s: Store, chat: Chat, rows: seq<UpdateId>, now: int)
    requires Inv(s) && Claimable(s, chat, now) && Lists(s, rows, chat, s.turns[chat].burst.value) && rows != []
    ensures var r := ClaimWork(s, chat, rows, now);
      && r.Committed? && r.value == Some(Interactive(s.turns[chat].burst.value, s.turns[chat].revision, 1))
      && (forall u | u in s.inbox && s.inbox[u].kind == Message && s.inbox[u].chat == chat && s.inbox[u].status != Completed :: u in rows)
      && r.store.inputs[r.value.value] == rows
  {
    InvParts(s);
    ClaimNeverCollides(s, chat, rows, now);
    ClaimStarts(s, chat, rows, now);
    forall u | u in s.inbox && s.inbox[u].kind == Message && s.inbox[u].chat == chat && s.inbox[u].status != Completed ensures u in rows {
      assert RowKept(s, s.inbox[u]);
      assert Waits(s, u, chat, s.turns[chat].burst.value);
    }
    hide Inv;
    hide TurnInv;
    hide Attempts;
    hide Started;
  }

  // ----- Ended generations -----

  ghost predicate GensSettle(s: Store, s': Store) {
    forall g | g in s.gens :: g in s'.gens && (s.gens[g].status != Active ==> s'.gens[g].status == s.gens[g].status)
  }

  /** Only an active generation gets new frames. */
  ghost predicate FramesSettle(s: Store, s': Store) {
    && (forall e | e in s.events :: e in s'.events && (s.events[e] != Reserved ==> s'.events[e] == s.events[e]))
    && (forall e | e in s'.events && e !in s.events :: e.gen in s.gens && s.gens[e.gen].status == Active)
  }

  lemma FramesSettleTrans(a: Store, b: Store, c: Store)
    requires FramesSettle(a, b) && FramesSettle(b, c) && b.events.Keys == a.events.Keys && c.events.Keys == b.events.Keys
    ensures FramesSettle(a, c)
  {
  }

  lemma InterruptSettles(s: Store, id: GenId, now: int)
    ensures var s' := Interrupt(s, id, now); GensSettle(s, s') && FramesSettle(s, s') && s'.events.Keys == s.events.Keys
  {
    hide HoldsTurn;
  }

  lemma {:induction false} InterruptAllSettles(s: Store, rows: seq<GenId>, now: int)
    ensures var s' := InterruptAll(s, rows, now); GensSettle(s, s') && FramesSettle(s, s') && s'.events.Keys == s.events.Keys
    decreases |rows|
  {
    if rows != [] {
      var s1 := Interrupt(s, rows[0], now);
      InterruptSettles(s, rows[0], now);
      hide Interrupt;
      InterruptAllSettles(s1, rows[1..], now);
      hide FramesSettle;
      FramesSettleTrans(s, s1, InterruptAll(s, rows, now));
    }
  }

  lemma TurnEventFrames(s: Store, e: Event)
    requires !AsideEvent(e) && !e.RecoveringGens?
    ensures Apply(s, e).events == s.events
  {
    hide NextRevision;
    hide Attempts;
    hide BurstAttempts;
    hide RetryDelay;
    hide Lists;
    hide Claimable;
    hide HoldsTurn;
  }

  lemma EnqueueSettles(s: Store, update: UpdateId, chat: Chat, now: int, debounce: int)
    ensures GensSettle(s, After(s, Enqueue(s, update, chat, Message, now, debounce)))
  {
    hide TurnAfterMessage;
  }

  lemma CompleteSettles(s: Store, id: GenId, revision: nat)
    ensures GensSettle(s, After(s, CompleteGen(s, id, revision)))
  {
    hide HoldsTurn;
  }

  lemma FailSettles(s: Store, id: GenId, maxAttempts: Option<nat>, minimum: Option<nat>, now: int)
    ensures GensSettle(s, After(s, FailGen(s, id, maxAttempts, minimum, now)))
  {
    hide BurstAttempts;
    hide RetryDelay;
    hide HoldsTurn;
  }

  lemma StartSettles(s: Store, chat: Chat, run: RunId, rows: seq<UpdateId>, now: int)
    ensures GensSettle(s, After(s, ReserveAutomation(s, chat, run, now)))
    ensures GensSettle(s, After(s, ClaimWork(s, chat, rows, now)))
  {
    hide NextRevision;
    hide Attempts;
    hide Lists;
    hide Claimable;
  }

  lemma TurnEventGens(s: Store, e: Event)
    requires !AsideEvent(e) && !e.RecoveringGens?
    ensures GensSettle(s, Apply(s, e))
  {
    hide GensSettle;
    hide Enqueue;
    hide ReserveAutomation;
    hide ClaimWork;
    hide CompleteGen;
    hide FailGen;
    match e
    case Enqueuing(update, chat, _, now, debounce) => EnqueueSettles(s, update, chat, now, debounce);
    case ReservingAutomation(chat, run, now) => StartSettles(s, chat, run, [], now);
    case ClaimingWork(chat, rows, now) => StartSettles(s, chat, 0, rows, now);
    case CompletingGen(id, revision) => CompleteSettles(s, id, revision);
    case FailingGen(id, maxAttempts, minimum, now) => FailSettles(s, id, maxAttempts, minimum, now);
  }

  lemma AsideEventGens(s: Store, e: Event)
    requires AsideEvent(e)
    ensures GensSettle(s, Apply(s, e))
  {
    hide ControlDelay;
    hide ControlReady;
    hide InProgress;
  }

  lemma AsideEventFrames(s: Store, e: Event)
    requires AsideEvent(e)
    ensures FramesSettle(s, Apply(s, e))
  {
    hide ControlDelay;
    hide ControlReady;
    hide InProgress;
    if !e.ReservingFrame? && !e.SettlingFrame? {
      assert Apply(s, e).events == s.events;
    }
  }

  lemma ApplySettles(s: Store, e: Event)
    ensures GensSettle(s, Apply(s, e)) && FramesSettle(s, Apply(s, e))
  {
    if e.RecoveringGens? {
      InterruptAllSettles(s, e.ids, e.now);
      hide InterruptAll;
    } else if AsideEvent(e) {
      AsideEventGens(s, e);
      AsideEventFrames(s, e);
      hide *;
    } else {
      TurnEventGens(s, e);
      TurnEventFrames(s, e);
      hide Apply;
    }
  }

  /** A superseded, completed or failed generation stays so, and never again puts a frame on the wire. */
  lemma {:induction false} EndedGenerationsStaySilent(s: Store, events: seq<Event>, id: GenId)
    requires Inv(s) && id in s.gens && s.gens[id].status != Active
    ensures var s' := Play(s, events);
      && id in s'.gens && s'.gens[id].status == s.gens[id].status
      && forall e: Slot | e.gen == id :: e in s'.events <==> e in s.events
    decreases |events|
  {
    if events != [] {
      var s1 := Apply(s, events[0]);
      ApplyKeeps(s, events[0]);
      ApplySettles(s, events[0]);
      hide Inv;
      hide Apply;
      EndedGenerationsStaySilent(s1, events[1..], id);
    }
  }

  /** A frame is reserved at most once in all, and once its outcome is known it keeps it. */
  lemma {:induction false} FramesAreReservedOnce(s: Store, events: seq<Event>, slot: Slot, revision: nat)
    requires Inv(s) && slot in s.events
    ensures var s' := Play(s, events);
      && slot in s'.events && ReserveFrame(s', slot.gen, revision, slot.sequence) == Committed(s', false)
      && (s.events[slot] != Reserved ==> s'.events[slot] == s.events[slot])
    decreases |events|
  {
    if events != [] {
      ApplyKeeps(s, events[0]);
      ApplySettles(s, events[0]);
      hide Inv;
      hide Apply;
      FramesAreReservedOnce(Apply(s, events[0]), events[1..], slot, revision);
    }
  }
}
