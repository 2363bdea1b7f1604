/** How long a chat stays quiet before it is answered, through any history. */
module GenerationQuiet {
  import opened Wrappers
  import opened Generations
  import opened GenerationInvariant
  import opened GenerationHistory
  import opened GenerationEffects

  /** The call brings a message the chat has not seen. */
  predicate NewMessage(s: Store, e: Event, chat: Chat) {
    e.Enqueuing? && e.kind.Message? && e.chat == chat && e.update !in s.inbox
  }

  /** The call ends the chat's active generation by a failure, or by recovery after a restart. */
  predicate Resets(s: Store, e: Event, chat: Chat) {
    || (e.FailingGen? && Running(s, e.id) && s.gens[e.id].chat == chat)
    || (e.RecoveringGens? && chat in s.turns && s.turns[chat].active.Some?)
  }

  ghost predicate NeverReset(s: Store, events: seq<Event>, chat: Chat)
    requires Inv(s)
    decreases |events|
  {
    if events == [] then true
    else
      ApplyKeeps(s, events[0]);
      !Resets(s, events[0], chat) && NeverReset(Apply(s, events[0]), events[1..], chat)
  }

  /** The time the last new message set, or the one before. */
  ghost function QuietAfter(s: Store, events: seq<Event>, chat: Chat, quiet: int): int
    requires Inv(s)
    decreases |events|
  {
    if events == [] then quiet
    else
      ApplyKeeps(s, events[0]);
      QuietAfter(Apply(s, events[0]), events[1..], chat, if NewMessage(s, events[0], chat) then events[0].now + events[0].debounce else quiet)
  }

  ghost predicate QuietMoves(s: Store, s': Store, e: Event, chat: Chat) {
    && chat in s.turns && chat in s'.turns
    && (NewMessage(s, e, chat) ==> s'.turns[chat].quietUntil == e.now + e.debounce)
    && (!NewMessage(s, e, chat) && !Resets(s, e, chat) ==> s'.turns[chat].quietUntil == s.turns[chat].quietUntil)
  }

  lemma StartsMoveQuiet(s: Store, e: Event, chat: Chat)
    requires Inv(s) && chat in s.turns && (e.Enqueuing? || e.ReservingAutomation? || e.ClaimingWork?)
    ensures QuietMoves(s, Apply(s, e), e, chat)
  {
    InvParts(s);
    hide Inv;
    match e
    case Enqueuing(update, at, kind, now, debounce) =>
      ArrivalExactly(s, update, at, kind, now, debounce);
      hide Enqueue;
      hide TurnInv;
    case ReservingAutomation(at, run, now) =>
      ReservationExactly(s, at, run, now);
      hide ReserveAutomation;
      hide TurnInv;
    case ClaimingWork(at, rows, now) =>
      hide Attempts;
      hide Lists;
      hide TurnInv;
  }

  lemma EndsMoveQuiet(s: Store, e: Event, chat: Chat)
    requires Inv(s) && chat in s.turns && (e.CompletingGen? || e.FailingGen? || e.RecoveringGens?)
    ensures QuietMoves(s, Apply(s, e), e, chat)
  {
    InvParts(s);
    match e
    case CompletingGen(id, revision) =>
      CompletionExactly(s, id, revision);
      hide CompleteGen;
    case FailingGen(id, maxAttempts, minimum, now) =>
      FailureExactly(s, id, maxAttempts, minimum, now);
      hide FailGen;
    case RecoveringGens(ids, now) =>
      InterruptAllExactly(s, ids, now);
      hide InterruptAll;
      hide Interrupted;
    hide Inv;
    hide TurnInv;
  }

  lemma ApplyMovesQuiet(s: Store, e: Event, chat: Chat)
    requires Inv(s) && chat in s.turns
    ensures QuietMoves(s, Apply(s, e), e, chat)
  {
    if AsideEvent(e) {
      AsideIsQuiet(s, e);
      hide Apply;
      hide Inv;
    } else if e.Enqueuing? || e.ReservingAutomation? || e.ClaimingWork? {
      hide *;
      StartsMoveQuiet(s, e, chat);
    } else {
      EndsMoveQuiet(s, e, chat);
      hide QuietMoves;
      hide Inv;
    }
  }

  lemma AsideIsQuiet(s: Store, e: Event)
    requires Inv(s) && AsideEvent(e)
    ensures Apply(s, e).turns == s.turns
  {
    InvParts(s);
    AsideEventsKeep(s, e);
    hide *;
    AsideLeavesTurns(s, Apply(s, e));
  }

  lemma AsideLeavesTurns(s: Store, s': Store)
    requires Aside(s, s')
    ensures s'.turns == s.turns
  {
  }

  /** Without failures and recoveries, a chat is quiet until the time its last new message set. */
  lemma {:induction false} QuietFollowsMessages(s: Store, events: seq<Event>, chat: Chat)
    requires Inv(s) && chat in s.turns && NeverReset(s, events, chat)
    ensures var s' := Play(s, events); chat in s'.turns && s'.turns[chat].quietUntil == QuietAfter(s, events, chat, s.turns[chat].quietUntil)
    decreases |events|
  {
    if events != [] {
      ApplyKeeps(s, events[0]);
      ApplyMovesQuiet(s, events[0], chat);
      hide Inv;
      hide Apply;
      hide Resets;
      QuietFollowsMessages(Apply(s, events[0]), events[1..], chat);
    }
  }

  /** A generation of the chat that answers messages starts only by a claim, and no earlier than the chat's quiet time. */
  lemma StartsWhenQuiet(s: Store, e: Event, id: GenId)
    requires Inv(s) && id !in s.gens && id in Apply(s, e).gens && id.Interactive?
    ensures var chat := Apply(s, e).gens[id].chat; e.ClaimingWork? && e.chat == chat && chat in s.turns && s.turns[chat].quietUntil <= e.now
  {
    InvParts(s);
    if AsideEvent(e) {
      AsideEventsKeep(s, e);
      AsideKeepsGens(s, Apply(s, e));
      hide Apply;
      hide Inv;
    } else if e.RecoveringGens? {
      InterruptKeepsIds(s, e.ids, e.now);
      hide Inv;
      hide InterruptAll;
    } else if e.FailingGen? {
      FailureExactly(s, e.id, e.maxAttempts, e.minimum, e.now);
      hide FailGen;
      hide Inv;
      hide TurnInv;
    } else if e.Enqueuing? {
      ArrivalExactly(s, e.update, e.chat, e.kind, e.now, e.debounce);
      hide Enqueue;
      hide Inv;
      hide TurnInv;
    } else {
      hide Inv;
      hide TurnInv;
      hide Attempts;
      hide Lists;
      hide NextRevision;
    }
  }

  lemma AsideKeepsGens(s: Store, s': Store)
    requires Aside(s, s')
    ensures s'.gens.Keys == s.gens.Keys
  {
  }

  lemma {:induction false} QuietAtLeast(s: Store, events: seq<Event>, chat: Chat, quiet: int, bound: int)
    requires Inv(s) && bound <= quiet
    requires forall x | x in events && x.Enqueuing? && x.kind.Message? && x.chat == chat :: bound <= x.now + x.debounce
    ensures bound <= QuietAfter(s, events, chat, quiet)
    decreases |events|
  {
    if events != [] {
      ApplyKeeps(s, events[0]);
      hide Inv;
      hide Apply;
      assert events[0] in events;
      assert forall x | x in events[1..] :: x in events;
      QuietAtLeast(Apply(s, events[0]), events[1..], chat, if NewMessage(s, events[0], chat) then events[0].now + events[0].debounce else quiet, bound);
    }
  }

  /** After a message at `t` with debounce `d`, whatever is called next: as long as no failure or recovery resets the quiet
      time, an answer starts only by a claim, and not before the last message's arrival plus its debounce; so not before
      `t + d`, unless a later message carries an earlier time. */
  lemma AnswersWait(s: Store, update: UpdateId, chat: Chat, t: int, d: int, between: seq<Event>, e: Event, id: GenId)
    requires Inv(s) && update !in s.inbox
    ensures var s1 := Apply(s, Enqueuing(update, chat, Message, t, d));
      && Inv(s1)
      && var s2 := Play(s1, between); var s3 := Apply(s2, e);
         NeverReset(s1, between, chat) && id.Interactive? && id !in s2.gens && id in s3.gens && s3.gens[id].chat == chat ==>
           && e.ClaimingWork? && QuietAfter(s1, between, chat, t + d) <= e.now
           && ((forall x | x in between && x.Enqueuing? && x.kind.Message? && x.chat == chat :: t + d <= x.now + x.debounce) ==> t + d <= e.now)
  {
    var first := Enqueuing(update, chat, Message, t, d);
    MessageSetsQuiet(s, update, chat, t, d);
    ApplyKeeps(s, first);
    hide *;
    var s1 := Apply(s, first);
    if NeverReset(s1, between, chat) {
      QuietFollowsMessages(s1, between, chat);
      var s2 := Play(s1, between);
      if id.Interactive? && id !in s2.gens && id in Apply(s2, e).gens && Apply(s2, e).gens[id].chat == chat {
        StartsWhenQuiet(s2, e, id);
        if forall x | x in between && x.Enqueuing? && x.kind.Message? && x.chat == chat :: t + d <= x.now + x.debounce {
          QuietAtLeast(s1, between, chat, t + d, t + d);
        }
      }
    }
  }

  lemma MessageSetsQuiet(s: Store, update: UpdateId, chat: Chat, t: int, d: int)
    requires Inv(s) && update !in s.inbox
    ensures var s1 := Apply(s, Enqueuing(update, chat, Message, t, d)); chat in s1.turns && s1.turns[chat].quietUntil == t + d
  {
    InvParts(s);
    ArrivalExactly(s, update, chat, Message, t, d);
    hide Enqueue;
    hide Inv;
    hide TurnInv;
  }
}
