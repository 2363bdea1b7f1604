/** What each store call on chats accepts and the rows it leaves, and how long a chat stays quiet before it is answered. */
module GenerationEffects {
  import opened Wrappers
  import opened Generations
  import opened GenerationInvariant
  import opened GenerationHistory
  import opened GenerationMinimum

  // ----- A message arrives -----

  /** The first revision of a chat is one, and each new one is one more than the chat had reached. */
  lemma NextRevisionExactly(s: Store, chat: Chat)
    requires TurnInv(s)
    ensures NextRevision(s, chat) == if chat in s.turns then s.turns[chat].revision + 1 else 1
  {
    if chat in s.turns {
      NextIsOneMore(s, chat);
    } else {
      assert forall g | g in s.gens :: s.gens[g].chat in s.turns;
      assert Revisions(s, chat) == {};
      hide TurnInv;
    }
  }

  /** A new message waits in the open burst of its chat, or opens one named after it, under the next revision; the chat
      is quiet for the debounce, and the generation that was active is superseded. A known update changes nothing, and
      a control update only joins the inbox. */
  lemma ArrivalExactly(s: Store, update: UpdateId, chat: Chat, kind: Kind, now: int, debounce: int)
    requires TurnInv(s)
    ensures var step := Enqueue(s, update, chat, kind, now, debounce);
      if update in s.inbox then step == Committed(s, false)
      else
        var burst := if kind.Control? then None else if chat in s.turns && s.turns[chat].burst.Some? then s.turns[chat].burst else Some(Inbound(chat, update));
        var revision := if chat in s.turns then s.turns[chat].revision + 1 else 1;
        && step.Committed? && step.value
        && step.store.inbox == s.inbox[update := Update(chat, kind, Pending, 0, now, burst)]
        && step.store.inputs == s.inputs && step.store.events == s.events && step.store.gens.Keys == s.gens.Keys
        && step.store.turns == (if kind.Control? then s.turns else s.turns[chat := Turn(burst, revision, now + debounce, None)])
        && forall g | g in s.gens :: step.store.gens[g] ==
             if kind.Message? && chat in s.turns && s.turns[chat].active == Some(g)
             then Gen(s.gens[g].burst, s.gens[g].chat, s.gens[g].revision, Superseded, true) else s.gens[g]
  {
    NextRevisionExactly(s, chat);
    hide NextRevision;
  }

  // ----- Generations start -----

  /** The rows the second query of a claim returns: the unfinished messages of the open burst, in order. */
  ghost predicate AreWaiting(s: Store, chat: Chat, rows: seq<UpdateId>) {
    && (forall i, j | 0 <= i < j < |rows| :: rows[i] < rows[j])
    && forall u :: u in rows <==>
         && chat in s.turns && s.turns[chat].burst.Some? && u in s.inbox && s.inbox[u].chat == chat && s.inbox[u].burst == s.turns[chat].burst
         && s.inbox[u].kind.Message? && !s.inbox[u].status.Completed?
  }

  /** A claim starts a generation exactly when the chat has waiting messages, no active generation, and is quiet no
      longer; the generation is given all of them, under the revision of the chat. Otherwise nothing changes. */
  lemma ClaimExactly(s: Store, chat: Chat, rows: seq<UpdateId>, now: int)
    requires TurnInv(s) && AreWaiting(s, chat, rows)
    ensures ClaimWork(s, chat, rows, now) ==
      if rows != [] && chat in s.turns && s.turns[chat].burst.Some? && s.turns[chat].active.None? && s.turns[chat].quietUntil <= now
      then
        var t := s.turns[chat];
        var id := Interactive(t.burst.value, t.revision, 1);
        Committed(Store(s.inbox, s.turns[chat := Turn(t.burst, t.revision, t.quietUntil, Some(id))],
                        s.gens[id := Gen(t.burst.value, chat, t.revision, Active, false)], s.inputs[id := rows], s.events), Some(id))
      else Committed(s, None)
  {
    if rows != [] {
      assert rows[0] in rows;
    }
    if chat in s.turns && s.turns[chat].burst.Some? {
      WaitingIsListed(s, chat, rows);
      if s.turns[chat].active.None? {
        NoAttemptYet(s, chat);
        if s.turns[chat].quietUntil <= now {
          ClaimNeverCollides(s, chat, rows, now);
        }
      }
    }
    hide TurnInv;
    hide Attempts;
    hide AreWaiting;
    hide Lists;
  }

  lemma WaitingIsListed(s: Store, chat: Chat, rows: seq<UpdateId>)
    requires chat in s.turns && s.turns[chat].burst.Some? && AreWaiting(s, chat, rows)
    ensures Lists(s, rows, chat, s.turns[chat].burst.value)
  {
  }

  /** An automation is reserved exactly in a chat with no open burst and no active generation, under the next revision;
      it raises only if the same run was reserved under that revision for another chat. */
  lemma ReservationExactly(s: Store, chat: Chat, run: RunId, now: int)
    requires TurnInv(s)
    ensures var step := ReserveAutomation(s, chat, run, now);
      if chat in s.turns && (s.turns[chat].burst.Some? || s.turns[chat].active.Some?) then step == Committed(s, None)
      else
        var revision := if chat in s.turns then s.turns[chat].revision + 1 else 1;
        var id := Automation(run, revision);
        step == if id in s.gens then Aborted
                else Committed(Store(s.inbox, s.turns[chat := Turn(None, revision, if chat in s.turns then s.turns[chat].quietUntil else now, Some(id))],
                                     s.gens[id := Gen(AutoBurst(run, revision), chat, revision, Active, false)], s.inputs, s.events), Some(id))
  {
    NextRevisionExactly(s, chat);
    hide NextRevision;
    hide TurnInv;
  }

  // ----- Generations end -----

  function ClosedRow(row: Update, burst: Burst): Update {
    if row.burst == Some(burst) then Update(row.chat, row.kind, Completed, row.attempts, row.availableAt, row.burst) else row
  }

  /** What ending an active generation leaves: its row, the turn of its chat, and, if its burst is closed, the burst's
      messages, all of them completed. */
  ghost predicate Ends(s: Store, s': Store, id: GenId, row: Gen, turn: Turn, closed: bool) {
    && id in s.gens && s'.gens == s.gens[id := row] && s'.turns == s.turns[row.chat := turn] && s'.inputs == s.inputs
    && s'.inbox.Keys == s.inbox.Keys
    && forall u | u in s.inbox :: s'.inbox[u] == if closed then ClosedRow(s.inbox[u], s.gens[id].burst) else s.inbox[u]
  }

  /** Only the active generation, under its own revision, completes: it is done, its burst is closed, and the chat is
      idle at the same revision. */
  lemma CompletionExactly(s: Store, id: GenId, revision: nat)
    requires TurnInv(s)
    ensures var step := CompleteGen(s, id, revision);
      if id !in s.gens || !s.gens[id].status.Active? || s.gens[id].revision != revision then step == Committed(s, false)
      else
        var g := s.gens[id];
        && step.Committed? && step.value && step.store.events == s.events && g.chat in s.turns
        && Ends(s, step.store, id, Gen(g.burst, g.chat, g.revision, Done, g.cleanup), Turn(None, s.turns[g.chat].revision, s.turns[g.chat].quietUntil, None), true)
  {
    assert Running(s, id) ==> HoldsTurn(s, s.gens[id].chat, id);
  }

  /** How many generations a burst has had. */
  function Tried(s: Store, burst: Burst): nat {
    |set g | g in s.gens && s.gens[g].burst == burst|
  }

  /** A failure is terminal when the burst was tried as often as allowed: it is closed and the chat is idle at once.
      Any other failure reopens the burst under a later revision, at least the one asked for, quiet until now, or, with
      a limit on attempts, for a pause that doubles from a second up to a minute. */
  lemma FailureExactly(s: Store, id: GenId, maxAttempts: Option<nat>, minimum: Option<nat>, now: int)
    requires TurnInv(s)
    ensures var step := FailGen(s, id, maxAttempts, minimum, now);
      if id !in s.gens || !s.gens[id].status.Active? then step == Committed(s, false)
      else
        var g := s.gens[id];
        var tried := Tried(s, g.burst);
        var row := Gen(g.burst, g.chat, g.revision, Failed, g.cleanup);
        && tried >= 1 && step.Committed? && step.value && step.store.events == s.events && g.chat in s.turns
        && var t := s.turns[g.chat];
           if maxAttempts.Some? && maxAttempts.value <= tried then Ends(s, step.store, id, row, Turn(None, t.revision, now, None), true)
           else
             var revision := if minimum.Some? && minimum.value > t.revision + 1 then minimum.value else t.revision + 1;
             Ends(s, step.store, id, row, Turn(t.burst, revision, if maxAttempts.Some? then now + Pause(tried, 60) else now, None), false)
  {
    if id in s.gens && s.gens[id].status.Active? {
      ActiveIsHeld(s, id);
      hide TurnInv;
      TriedOnce(s, id);
      PauseIsDelay(Tried(s, s.gens[id].burst));
      assert Tried(s, s.gens[id].burst) == BurstAttempts(s, s.gens[id].burst);
      hide Tried;
      hide BurstAttempts;
      hide Pause;
      hide RetryDelay;
      FinalFailure(s, id, now);
      OtherFailure(s, id, if minimum.Some? then minimum.value else 0, if maxAttempts.Some? then now + RetryDelay(BurstAttempts(s, s.gens[id].burst)) else now);
      hide FailForGood;
      hide FailForNow;
      hide Ends;
    }
    hide TurnInv;
  }

  lemma FinalFailure(s: Store, id: GenId, now: int)
    requires Running(s, id) && HoldsTurn(s, s.gens[id].chat, id)
    ensures var g := s.gens[id]; var t := s.turns[g.chat]; var s' := FailForGood(s, id, now);
      s'.events == s.events && Ends(s, s', id, Gen(g.burst, g.chat, g.revision, Failed, g.cleanup), Turn(None, t.revision, now, None), true)
  {
  }

  lemma OtherFailure(s: Store, id: GenId, least: nat, quiet: int)
    requires Running(s, id) && HoldsTurn(s, s.gens[id].chat, id)
    ensures var g := s.gens[id]; var t := s.turns[g.chat]; var s' := FailForNow(s, id, least, quiet);
      && s'.events == s.events
      && Ends(s, s', id, Gen(g.burst, g.chat, g.revision, Failed, g.cleanup), Turn(t.burst, if least > t.revision + 1 then least else t.revision + 1, quiet, None), false)
  {
  }

  lemma ActiveIsHeld(s: Store, id: GenId)
    requires TurnInv(s) && id in s.gens && s.gens[id].status.Active?
    ensures HoldsTurn(s, s.gens[id].chat, id)
  {
    assert Running(s, id);
  }

  lemma TriedOnce(s: Store, id: GenId)
    requires id in s.gens
    ensures Tried(s, s.gens[id].burst) >= 1
  {
    var burst := s.gens[id].burst;
    var tries := set g | g in s.gens && s.gens[g].burst == burst;
    assert id in tries && Tried(s, burst) == |tries|;
  }

  /** The pause after the n-th attempt, in microseconds: one second, doubled each time, up to a limit in seconds. */
  function Pause(n: nat, limit: nat): nat
    requires n >= 1
  {
    (if PowerOfTwo(n - 1) < limit then PowerOfTwo(n - 1) else limit) * 1_000_000
  }

  lemma PauseIsDelay(n: nat)
    requires n >= 1
    ensures RetryDelay(n) == Pause(n, 60) && ControlDelay(n) == Pause(n, 300)
  {
    assert (if n > 0 then n - 1 else 0) == n - 1;
  }

  // ----- Recovery -----

  predicate Interrupted(s: Store, rows: seq<GenId>, g: GenId) {
    g in rows && g in s.gens && s.gens[g].status.Active?
  }

  /** What recovery leaves of a chat: if its active generation was interrupted, its burst is open again under the next
      revision, and quiet until now. */
  function TurnAfterRecovery(s: Store, rows: seq<GenId>, t: Turn, now: int): Turn {
    if t.active.Some? && Interrupted(s, rows, t.active.value) then Turn(t.burst, t.revision + 1, now, None) else t
  }

  function EventAfterRecovery(s: Store, rows: seq<GenId>, e: Slot): EventStatus
    requires e in s.events
  {
    if Interrupted(s, rows, e.gen) && s.events[e].Reserved? then Unknown else s.events[e]
  }

  ghost predicate Recovered(s: Store, s': Store, rows: seq<GenId>, now: int) {
    && s'.inbox == s.inbox && s'.inputs == s.inputs && s'.gens.Keys == s.gens.Keys && s'.turns.Keys == s.turns.Keys && s'.events.Keys == s.events.Keys
    && (forall g | g in s.gens :: s'.gens[g] == if Interrupted(s, rows, g) then Gen(s.gens[g].burst, s.gens[g].chat, s.gens[g].revision, Superseded, true) else s.gens[g])
    && (forall c | c in s.turns :: s'.turns[c] == TurnAfterRecovery(s, rows, s.turns[c], now))
    && (forall e | e in s.events :: s'.events[e] == EventAfterRecovery(s, rows, e))
  }

  lemma InterruptExactly(s: Store, id: GenId, now: int)
    requires TurnInv(s)
    ensures Recovered(s, Interrupt(s, id, now), [id], now)
  {
    forall g ensures Interrupted(s, [id], g) <==> g == id && Running(s, id) {}
    if Running(s, id) {
      ActiveIsHeld(s, id);
      OnlyItsChat(s, id);
      hide *;
      InterruptRows(s, id, now);
    } else {
      hide Interrupted;
      hide TurnInv;
      hide Running;
    }
  }

  lemma InterruptRows(s: Store, id: GenId, now: int)
    requires Running(s, id) && HoldsTurn(s, s.gens[id].chat, id) && forall g :: Interrupted(s, [id], g) <==> g == id
    requires forall c | c in s.turns && s.turns[c].active == Some(id) :: c == s.gens[id].chat
    ensures Recovered(s, Interrupt(s, id, now), [id], now)
  {
    hide Interrupted;
  }

  lemma OnlyItsChat(s: Store, id: GenId)
    requires TurnInv(s)
    ensures forall c | c in s.turns && s.turns[c].active == Some(id) :: id in s.gens && c == s.gens[id].chat
  {
  }

  lemma {:induction false} InterruptAllExactly(s: Store, rows: seq<GenId>, now: int)
    requires Inv(s)
    ensures Recovered(s, InterruptAll(s, rows, now), rows, now)
    decreases |rows|
  {
    if rows == [] {
      hide Inv;
    } else {
      var s1 := Interrupt(s, rows[0], now);
      InvParts(s);
      InterruptExactly(s, rows[0], now);
      InterruptKeeps(s, rows[0], now);
      hide Interrupt;
      hide Inv;
      hide TurnInv;
      hide Recovered;
      InterruptAllExactly(s1, rows[1..], now);
      RecoveredOn(s, s1, InterruptAll(s1, rows[1..], now), rows, now);
    }
  }

  lemma InterruptKeeps(s: Store, id: GenId, now: int)
    requires Inv(s)
    ensures Inv(Interrupt(s, id, now))
  {
    InvParts(s);
    hide Inv;
    if Running(s, id) {
      InterruptReleases(s, id, now);
      ReleasedKeeps(s, Interrupt(s, id, now), id, false);
    }
  }

  lemma RecoveredOn(s: Store, s1: Store, s2: Store, rows: seq<GenId>, now: int)
    requires rows != [] && Recovered(s, s1, [rows[0]], now) && Recovered(s1, s2, rows[1..], now)
    ensures Recovered(s, s2, rows, now)
  {
    forall g ensures Interrupted(s1, rows[1..], g) <==> Interrupted(s, rows, g) && g != rows[0] {
      assert g in rows <==> g == rows[0] || g in rows[1..];
      assert g in [rows[0]] <==> g == rows[0];
    }
    forall g ensures Interrupted(s, [rows[0]], g) <==> Interrupted(s, rows, g) && g == rows[0] {}
    hide Interrupted;
  }

  /** Recovery interrupts every active generation: it is superseded, its chat reopens under the next revision, and its
      reserved frames are of unknown outcome. */
  lemma RecoveryExactly(s: Store, rows: seq<GenId>, now: int)
    requires Inv(s) && forall g :: g in rows <==> g in s.gens && s.gens[g].status.Active?
    ensures var step := RecoverGens(s, rows, now); step.Committed? && Recovered(s, step.store, rows, now)
  {
    RecoveryCommits(s, rows, now);
    hide *;
    InterruptAllExactly(s, rows, now);
  }

  lemma RecoveryCommits(s: Store, rows: seq<GenId>, now: int)
    requires forall g :: g in rows <==> g in s.gens && s.gens[g].status.Active?
    ensures RecoverGens(s, rows, now) == Committed(InterruptAll(s, rows, now), ())
  {
    hide InterruptAll;
  }

  // ----- Clean-up, control updates and frames -----

  lemma CleanUpExactly(s: Store, id: GenId)
    ensures CleanUp(s, id) ==
      if id in s.gens && s.gens[id].cleanup
      then Committed(Store(s.inbox, s.turns, s.gens[id := Gen(s.gens[id].burst, s.gens[id].chat, s.gens[id].revision, s.gens[id].status, false)], s.inputs, s.events), true)
      else Committed(s, false)
  {
  }

  function Restamped(row: Update, status: InboxStatus, attempts: nat, availableAt: int): Update {
    Update(row.chat, row.kind, status, attempts, availableAt, row.burst)
  }

  /** A control update is handled once its time has come, in the order of the chat's control updates, one at a time; its
      attempts are counted, and one put off waits for a pause that doubles from a second up to five minutes. */
  lemma ControlCallsExactly(s: Store, update: UpdateId, now: int)
    ensures ClaimControl(s, update, now) ==
      if update in s.inbox && s.inbox[update].kind.Control? && s.inbox[update].status.Pending? && s.inbox[update].availableAt <= now
         && forall u | u in s.inbox && s.inbox[u].chat == s.inbox[update].chat && s.inbox[u].kind.Control? ::
              !s.inbox[u].status.Processing? && (u < update ==> s.inbox[u].status.Completed?)
      then Committed(Store(s.inbox[update := Restamped(s.inbox[update], Processing, s.inbox[update].attempts + 1, s.inbox[update].availableAt)], s.turns, s.gens, s.inputs, s.events), true)
      else Committed(s, false)
    ensures CompleteControl(s, update) ==
      if update in s.inbox && s.inbox[update].status.Processing?
      then Store(s.inbox[update := Restamped(s.inbox[update], Completed, s.inbox[update].attempts, s.inbox[update].availableAt)], s.turns, s.gens, s.inputs, s.events) else s
    ensures update in s.inbox && s.inbox[update].status.Processing? && s.inbox[update].attempts >= 1 ==>
      RetryControl(s, update, now) ==
        Store(s.inbox[update := Restamped(s.inbox[update], Pending, s.inbox[update].attempts, now + Pause(s.inbox[update].attempts, 300))], s.turns, s.gens, s.inputs, s.events)
    ensures update !in s.inbox || !s.inbox[update].status.Processing? ==> RetryControl(s, update, now) == s
  {
    if update in s.inbox && s.inbox[update].attempts >= 1 {
      PauseIsDelay(s.inbox[update].attempts);
    }
    hide Pause;
    hide ControlDelay;
  }

  /** After a restart every update in progress waits again, at once. */
  lemma ResetExactly(s: Store, now: int)
    ensures var s' := ResetControls(s, now);
      && s'.turns == s.turns && s'.gens == s.gens && s'.inputs == s.inputs && s'.events == s.events && s'.inbox.Keys == s.inbox.Keys
      && forall u | u in s.inbox :: s'.inbox[u] == if s.inbox[u].status.Processing? then Restamped(s.inbox[u], Pending, s.inbox[u].attempts, now) else s.inbox[u]
  {
  }

  /** A frame is reserved once, by the active generation under its own revision, and a reserved frame is settled once. */
  lemma FrameCallsExactly(s: Store, id: GenId, revision: nat, sequence: nat, status: EventStatus)
    ensures ReserveFrame(s, id, revision, sequence) ==
      if id in s.gens && s.gens[id].status.Active? && s.gens[id].revision == revision && Slot(id, sequence) !in s.events
      then Committed(Store(s.inbox, s.turns, s.gens, s.inputs, s.events[Slot(id, sequence) := Reserved]), true) else Committed(s, false)
    ensures SettleFrame(s, Slot(id, sequence), status) ==
      if Slot(id, sequence) in s.events && s.events[Slot(id, sequence)].Reserved?
      then Committed(Store(s.inbox, s.turns, s.gens, s.inputs, s.events[Slot(id, sequence) := status]), true) else Committed(s, false)
  {
  }
}
