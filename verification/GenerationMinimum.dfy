/** The minimum revision a failure asks for: which later generations of the chat reach it, through any history. */
module GenerationMinimum {
  import opened Wrappers
  import opened Generations
  import opened GenerationInvariant
  import opened GenerationHistory

  // ----- Revisions never go back -----

  /** The revision of a chat never falls, a generation keeps its chat and revision, and a new one runs at or above
      the revision its chat had reached. */
  ghost predicate Forward(s: Store, s': Store) {
    && (forall c | c in s.turns :: c in s'.turns && s.turns[c].revision <= s'.turns[c].revision)
    && (forall g | g in s.gens :: g in s'.gens && s'.gens[g].chat == s.gens[g].chat && s'.gens[g].revision == s.gens[g].revision)
    && (forall g | g in s'.gens && g !in s.gens && s'.gens[g].chat in s.turns :: s.turns[s'.gens[g].chat].revision <= s'.gens[g].revision)
  }

  /** Nothing is open in the chat: no burst and no generation. */
  predicate Idle(s: Store, chat: Chat) {
    chat in s.turns && s.turns[chat].burst.None? && s.turns[chat].active.None?
  }

  ghost predicate IdleStays(s: Store, s': Store, chat: Chat) {
    Idle(s, chat) ==> Idle(s', chat) && s'.turns[chat].revision == s.turns[chat].revision
  }

  /** The calls that may start something in an idle chat. */
  predicate Opens(e: Event, chat: Chat) {
    (e.Enqueuing? && e.kind == Message && e.chat == chat) || (e.ReservingAutomation? && e.chat == chat)
  }

  lemma ForwardTrans(a: Store, b: Store, c: Store)
    requires Forward(a, b) && Forward(b, c)
    ensures Forward(a, c)
  {
  }

  lemma ReleasedMoves(s: Store, s': Store, id: GenId, closed: bool, chat: Chat)
    requires Released(s, s', id, closed)
    ensures Forward(s, s') && IdleStays(s, s', chat)
  {
  }

  lemma StartedMoves(s: Store, s': Store, id: GenId, at: Chat, chat: Chat)
    requires Started(s, s', id, at)
    ensures Forward(s, s') && (at != chat || id.Interactive? ==> IdleStays(s, s', chat))
  {
  }

  lemma ArrivedMoves(s: Store, s': Store, update: UpdateId, at: Chat, chat: Chat)
    requires Arrived(s, s', update, at)
    ensures Forward(s, s') && (at != chat ==> IdleStays(s, s', chat))
  {
  }

  lemma AsideMoves(s: Store, s': Store, chat: Chat)
    requires Aside(s, s')
    ensures Forward(s, s') && IdleStays(s, s', chat)
  {
  }

  lemma {:induction false} InterruptAllMoves(s: Store, rows: seq<GenId>, now: int, chat: Chat)
    requires Inv(s)
    ensures Forward(s, InterruptAll(s, rows, now)) && IdleStays(s, InterruptAll(s, rows, now), chat)
    decreases |rows|
  {
    hide Inv;
    if rows != [] {
      var s1 := Interrupt(s, rows[0], now);
      InvParts(s);
      hide ActiveNamed;
      hide ActiveHeld;
      hide TurnInv;
      if Running(s, rows[0]) {
        InterruptReleases(s, rows[0], now);
        ReleasedKeeps(s, s1, rows[0], false);
        ReleasedMoves(s, s1, rows[0], false, chat);
      }
      hide Interrupt;
      hide Released;
      assert Inv(s1) && Forward(s, s1) && IdleStays(s, s1, chat);
      InterruptAllMoves(s1, rows[1..], now, chat);
      ForwardTrans(s, s1, InterruptAll(s, rows, now));
      hide Forward;
    }
  }

  lemma TurnEventsMove(s: Store, e: Event, chat: Chat)
    requires Inv(s) && !AsideEvent(e)
    ensures Forward(s, Apply(s, e)) && (!Opens(e, chat) ==> IdleStays(s, Apply(s, e), chat))
  {
    InvParts(s);
    hide Inv;
    hide TurnInv;
    hide Started;
    hide Released;
    hide Arrived;
    match e
    case Enqueuing(update, at, _, now, debounce) =>
      if update !in s.inbox {
        EnqueueArrives(s, update, at, now, debounce);
        hide Enqueue;
        ArrivedMoves(s, Apply(s, e), update, at, chat);
      }
    case ReservingAutomation(at, run, now) =>
      AutomationStarts(s, at, run, now);
      var r := ReserveAutomation(s, at, run, now);
      if r.Committed? && r.value.Some? {
        StartedMoves(s, r.store, r.value.value, at, chat);
      }
    case ClaimingWork(at, rows, now) =>
      ClaimStarts(s, at, rows, now);
      hide ClaimWork;
      var r := ClaimWork(s, at, rows, now);
      if r.Committed? && r.value.Some? {
        StartedMoves(s, r.store, r.value.value, at, chat);
      }
    case CompletingGen(id, revision) =>
      if Running(s, id) && s.gens[id].revision == revision {
        CompleteReleases(s, id, revision);
        hide CompleteGen;
        ReleasedMoves(s, Apply(s, e), id, true, chat);
      }
    case FailingGen(id, maxAttempts, minimum, now) =>
      if Running(s, id) {
        FailReleases(s, id, maxAttempts, minimum, now);
        hide FailGen;
        ReleasedMoves(s, Apply(s, e), id, maxAttempts.Some? && BurstAttempts(s, s.gens[id].burst) >= maxAttempts.value, chat);
      }
    case RecoveringGens(ids, now) =>
      InterruptAllMoves(s, ids, now, chat);
      hide InterruptAll;
      hide Forward;
      hide IdleStays;
      assert !RecoverGens(s, ids, now).Committed? ==> Apply(s, e) == s;
      NothingMoves(s, chat);
  }

  lemma NothingMoves(s: Store, chat: Chat)
    ensures Forward(s, s) && IdleStays(s, s, chat)
  {
  }

  lemma ApplyMoves(s: Store, e: Event, chat: Chat)
    requires Inv(s)
    ensures Forward(s, Apply(s, e)) && (!Opens(e, chat) ==> IdleStays(s, Apply(s, e), chat))
  {
    InvParts(s);
    if AsideEvent(e) {
      AsideEventsKeep(s, e);
      hide *;
      AsideMoves(s, Apply(s, e), chat);
    } else {
      hide *;
      TurnEventsMove(s, e, chat);
    }
  }

  /** No history takes revisions back. */
  lemma {:induction false} PlayMovesForward(s: Store, events: seq<Event>)
    requires Inv(s)
    ensures Forward(s, Play(s, events))
    decreases |events|
  {
    hide Inv;
    hide Forward;
    hide Apply;
    if events == [] {
      NothingMoves(s, 0);
    } else {
      var s1 := Apply(s, events[0]);
      ApplyKeeps(s, events[0]);
      ApplyMoves(s, events[0], 0);
      PlayMovesForward(s1, events[1..]);
      ForwardTrans(s, s1, Play(s, events));
    }
  }

  /** An idle chat stays idle, under the same revision, until a message or an automation starts something. */
  lemma {:induction false} PlayStaysIdle(s: Store, events: seq<Event>, chat: Chat)
    requires Inv(s) && Idle(s, chat) && forall e | e in events :: !Opens(e, chat)
    ensures Idle(Play(s, events), chat) && Play(s, events).turns[chat].revision == s.turns[chat].revision
    decreases |events|
  {
    if events != [] {
      var s1 := Apply(s, events[0]);
      ApplyKeeps(s, events[0]);
      ApplyMoves(s, events[0], chat);
      hide Inv;
      hide Apply;
      hide Opens;
      hide Forward;
      assert !Opens(events[0], chat);
      PlayStaysIdle(s1, events[1..], chat);
    }
  }

  // ----- After a failure that is not terminal -----

  /** After a non-terminal failure every later generation of the chat has at least the requested revision, through
      any history: messages, claims, automation, recovery and further failures included. */
  lemma MinimumIsRespected(s: Store, id: GenId, maxAttempts: Option<nat>, minimum: nat, now: int, events: seq<Event>, next: GenId)
    requires Inv(s) && Running(s, id)
    requires !(maxAttempts.Some? && BurstAttempts(s, s.gens[id].burst) >= maxAttempts.value)
    ensures var s1 := After(s, FailGen(s, id, maxAttempts, Some(minimum), now));
      && Inv(s1)
      && var s2 := Play(s1, events);
         next !in s1.gens && next in s2.gens && s2.gens[next].chat == s.gens[id].chat ==> s2.gens[next].revision >= minimum
  {
    var s1 := After(s, FailGen(s, id, maxAttempts, Some(minimum), now));
    var chat := s.gens[id].chat;
    hide *;
    FailRaisesRevision(s, id, maxAttempts, minimum, now);
    ApplyKeeps(s, FailingGen(id, maxAttempts, Some(minimum), now));
    FailingIsCall(s, id, maxAttempts, Some(minimum), now);
    PlayMovesForward(s1, events);
    var s2 := Play(s1, events);
    if next !in s1.gens && next in s2.gens && s2.gens[next].chat == chat {
      NewIsAbove(s1, s2, next);
    }
  }

  lemma NewIsAbove(s: Store, s': Store, next: GenId)
    requires Forward(s, s') && next !in s.gens && next in s'.gens && s'.gens[next].chat in s.turns
    ensures s.turns[s'.gens[next].chat].revision <= s'.gens[next].revision
  {
  }

  lemma FailRaisesRevision(s: Store, id: GenId, maxAttempts: Option<nat>, minimum: nat, now: int)
    requires Inv(s) && Running(s, id)
    requires !(maxAttempts.Some? && BurstAttempts(s, s.gens[id].burst) >= maxAttempts.value)
    ensures var s1 := After(s, FailGen(s, id, maxAttempts, Some(minimum), now));
      s.gens[id].chat in s1.turns && s1.turns[s.gens[id].chat].revision >= minimum
  {
    InvParts(s);
    hide Inv;
    hide TurnInv;
    hide BurstAttempts;
    hide RetryDelay;
  }

  // ----- After a terminal failure -----

  lemma TerminalFailureLeavesIdle(s: Store, id: GenId, maxAttempts: nat, minimum: nat, now: int)
    requires Inv(s) && Running(s, id) && BurstAttempts(s, s.gens[id].burst) >= maxAttempts
    ensures var s1 := After(s, FailGen(s, id, Some(maxAttempts), Some(minimum), now));
      Inv(s1) && Idle(s1, s.gens[id].chat) && s1.turns[s.gens[id].chat].revision == s.gens[id].revision
  {
    InvParts(s);
    FailReleases(s, id, Some(maxAttempts), Some(minimum), now);
    ReleasedKeeps(s, After(s, FailGen(s, id, Some(maxAttempts), Some(minimum), now)), id, true);
    hide FailGen;
    hide Inv;
    hide TurnInv;
  }

  lemma NextIsOneMore(s: Store, chat: Chat)
    requires Bounded(s) && chat in s.turns
    ensures NextRevision(s, chat) == s.turns[chat].revision + 1
  {
    forall r | r in Revisions(s, chat) ensures r <= s.turns[chat].revision {
      var g :| g in s.gens && s.gens[g].chat == chat && s.gens[g].revision == r;
      assert BoundedBy(s.turns[chat], g, r);
    }
  }

  /** Whatever starts in an idle chat starts exactly one revision on. */
  lemma OpeningIsOneMore(s: Store, e: Event, chat: Chat)
    requires Inv(s) && Idle(s, chat) && Opens(e, chat)
    ensures Apply(s, e) == s || (chat in Apply(s, e).turns && Apply(s, e).turns[chat].revision == s.turns[chat].revision + 1)
  {
    InvParts(s);
    NextIsOneMore(s, chat);
    hide Inv;
    hide TurnInv;
    hide NextRevision;
  }

  /** A terminal failure ignores the requested minimum: whatever happens until something starts in the chat again, a
      message or an automation, it starts exactly one revision on. So the minimum is met exactly when it asks for no
      more than that. */
  lemma TerminalFailureIgnoresMinimum(
    s: Store, id: GenId, maxAttempts: nat, minimum: nat, now: int, between: seq<Event>, e: Event)
    requires Inv(s) && Running(s, id) && BurstAttempts(s, s.gens[id].burst) >= maxAttempts
    requires Opens(e, s.gens[id].chat) && forall x | x in between :: !Opens(x, s.gens[id].chat)
    ensures var chat := s.gens[id].chat;
            var s1 := After(s, FailGen(s, id, Some(maxAttempts), Some(minimum), now));
      && Inv(s1)
      && var s2 := Play(s1, between); var s3 := Apply(s2, e);
         s3 != s2 ==>
           chat in s3.turns && s3.turns[chat].revision == s.gens[id].revision + 1
           && (s3.turns[chat].revision >= minimum <==> minimum <= s.gens[id].revision + 1)
  {
    var s1 := After(s, FailGen(s, id, Some(maxAttempts), Some(minimum), now));
    TerminalFailureLeavesIdle(s, id, maxAttempts, minimum, now);
    hide *;
    PlayStaysIdle(s1, between, s.gens[id].chat);
    OpeningIsOneMore(Play(s1, between), e, s.gens[id].chat);
  }
}
