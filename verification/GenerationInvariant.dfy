/** What every reachable state of the chat tables satisfies: one active generation per chat, strictly growing
    revisions, and messages that are never lost and never answered twice. */
module GenerationInvariant {
  import opened Wrappers
  import opened Generations

  /** The stored active pointer names an active generation of the chat under the current revision. */
  ghost predicate ActiveNamed(s: Store) {
    forall c | c in s.turns && s.turns[c].active.Some? :: var g := s.turns[c].active.value;
      && g in s.gens && s.gens[g].status == Active && s.gens[g].chat == c && s.gens[g].revision == s.turns[c].revision
      && s.turns[c].burst == if g.Interactive? then Some(s.gens[g].burst) else None
  }

  /** Every active generation is the one its chat points to. */
  ghost predicate ActiveHeld(s: Store) {
    forall g | Running(s, g) :: HoldsTurn(s, s.gens[g].chat, g)
  }

  /** No generation is ahead of its chat, and while work is open only the active one is level with it. */
  ghost predicate Bounded(s: Store) {
    forall g | g in s.gens :: s.gens[g].chat in s.turns && BoundedBy(s.turns[s.gens[g].chat], g, s.gens[g].revision)
  }

  ghost predicate BoundedBy(t: Turn, g: GenId, revision: nat) {
    && revision <= t.revision
    && (revision == t.revision ==> t.active == Some(g) || (t.burst.None? && t.active.None?))
  }

  /** Identifiers say what they stand for, and no interactive generation is ever a second attempt. */
  ghost predicate Named(s: Store) {
    forall g | g in s.gens :: NameFits(s, g, s.gens[g])
  }

  ghost predicate NameFits(s: Store, g: GenId, row: Gen) {
    match g
    case Interactive(b, r, a) => a == 1 && row.burst == b && row.revision == r && b.Inbound? && b.chat == row.chat && b.first in s.inbox
    case Automation(run, r) => row.burst == AutoBurst(run, r) && row.revision == r
  }

  ghost predicate BurstsKnown(s: Store) {
    forall c | c in s.turns && s.turns[c].burst.Some? :: var b := s.turns[c].burst.value;
      b.Inbound? && b.chat == c && b.first in s.inbox
  }

  predicate OpenBurst(s: Store, chat: Chat, burst: Burst) {
    chat in s.turns && s.turns[chat].burst == Some(burst)
  }

  /** A message is unfinished exactly while its burst is the open burst of its chat. */
  ghost predicate MessagesKept(s: Store) {
    forall u | u in s.inbox :: RowKept(s, s.inbox[u])
  }

  ghost predicate RowKept(s: Store, row: Update) {
    if row.kind == Control then row.burst.None?
    else
      && row.burst.Some? && row.burst.value.Inbound? && row.burst.value.chat == row.chat && row.burst.value.first in s.inbox
      && row.status != Processing
      && (row.status != Completed <==> OpenBurst(s, row.chat, row.burst.value))
  }

  /** Inputs belong to the burst of their generation; an active generation was given the whole burst. */
  ghost predicate InputsKept(s: Store) {
    && (forall g | g in s.inputs :: g in s.gens && forall u | u in s.inputs[g] :: InBurst(s, u, s.gens[g].burst))
    && (forall g | Running(s, g) && g.Interactive? :: g in s.inputs && forall u | InBurst(s, u, s.gens[g].burst) :: u in s.inputs[g])
  }

  predicate InBurst(s: Store, u: UpdateId, burst: Burst) {
    u in s.inbox && s.inbox[u].burst == Some(burst)
  }

  /** A completed generation closed its burst for good. */
  ghost predicate ClosedOnce(s: Store) {
    && (forall g | g in s.gens && s.gens[g].status == Done :: !OpenBurst(s, s.gens[g].chat, s.gens[g].burst))
    && (forall g, h | g in s.gens && h in s.gens && s.gens[g].status == Done && s.gens[h].status == Done && s.gens[g].burst == s.gens[h].burst :: g == h)
  }

  ghost predicate GivenTo(s: Store, u: UpdateId, g: GenId) {
    g in s.inputs && g in s.gens && u in s.inputs[g] && (s.gens[g].status == Done || s.gens[g].status == Failed)
  }

  /** A finished message was the input of a generation that completed or terminally failed. */
  ghost predicate NothingLost(s: Store) {
    forall u | u in s.inbox && s.inbox[u].kind == Message && s.inbox[u].status == Completed :: exists g :: GivenTo(s, u, g)
  }

  /** A chat's control updates are handled one at a time. */
  ghost predicate OneControl(s: Store) {
    forall u, v | u in s.inbox && v in s.inbox && s.inbox[u].status == Processing && s.inbox[v].status == Processing && s.inbox[u].chat == s.inbox[v].chat :: u == v
  }

  ghost predicate TurnInv(s: Store) {
    ActiveNamed(s) && ActiveHeld(s) && Bounded(s) && Named(s) && BurstsKnown(s)
  }

  ghost predicate MessageInv(s: Store) {
    MessagesKept(s) && InputsKept(s) && ClosedOnce(s) && NothingLost(s)
  }

  ghost predicate Inv(s: Store) {
    TurnInv(s) && MessageInv(s) && OneControl(s)
  }

  // ----- A generation ends -----

  /** A running generation ends: it either closes its burst or reopens it under a later revision. */
  ghost predicate Released(s: Store, s': Store, id: GenId, closed: bool) {
    && Running(s, id) && HoldsTurn(s, s.gens[id].chat, id)
    && var g, t := s.gens[id], s.turns[s.gens[id].chat];
    && id in s'.gens && s'.gens == s.gens[id := s'.gens[id]] && s'.gens[id] == g.(status := s'.gens[id].status, cleanup := s'.gens[id].cleanup)
    && s'.gens[id].status != Active && (s'.gens[id].status == Done ==> closed) && (closed ==> s'.gens[id].status == Done || s'.gens[id].status == Failed)
    && g.chat in s'.turns && s'.turns == s.turns[g.chat := s'.turns[g.chat]]
    && var t' := s'.turns[g.chat];
    && t'.active.None? && t'.burst == (if closed then None else t.burst) && (if closed then t'.revision == t.revision else t'.revision > t.revision)
    && s'.inbox.Keys == s.inbox.Keys
    && (forall u | u in s.inbox :: s'.inbox[u] == if closed && s.inbox[u].burst == Some(g.burst) then s.inbox[u].(status := Completed) else s.inbox[u])
    && s'.inputs == s.inputs
  }

  lemma ReleasedTurns(s: Store, s': Store, id: GenId, closed: bool)
    requires TurnInv(s) && Released(s, s', id, closed)
    ensures TurnInv(s')
  {
    forall g | Running(s', g) ensures HoldsTurn(s', s'.gens[g].chat, g) {
      assert Running(s, g);
    }
    forall g | g in s'.gens ensures NameFits(s', g, s'.gens[g]) {
      assert NameFits(s, g, s.gens[g]);
    }
    forall g | g in s'.gens ensures s'.gens[g].chat in s'.turns && BoundedBy(s'.turns[s'.gens[g].chat], g, s'.gens[g].revision) {
      assert BoundedBy(s.turns[s.gens[g].chat], g, s.gens[g].revision);
    }
  }

  lemma ReleasedMessages(s: Store, s': Store, id: GenId, closed: bool)
    requires ActiveNamed(s) && ActiveHeld(s) && Named(s) && MessagesKept(s) && Released(s, s', id, closed)
    ensures MessagesKept(s')
  {
    assert NameFits(s, id, s.gens[id]);
    forall u | u in s'.inbox ensures RowKept(s', s'.inbox[u]) {
      assert RowKept(s, s.inbox[u]);
    }
  }

  lemma ReleasedInputs(s: Store, s': Store, id: GenId, closed: bool)
    requires InputsKept(s) && Released(s, s', id, closed)
    ensures InputsKept(s')
  {
    forall u, b ensures InBurst(s', u, b) == InBurst(s, u, b) {}
    forall g ensures Running(s', g) ==> Running(s, g) && s'.gens[g] == s.gens[g] {}
  }

  lemma ReleasedClosed(s: Store, s': Store, id: GenId, closed: bool)
    requires ActiveNamed(s) && ActiveHeld(s) && Named(s) && ClosedOnce(s) && Released(s, s', id, closed)
    ensures ClosedOnce(s')
  {
    assert NameFits(s, id, s.gens[id]);
    forall g | g in s.gens && s.gens[g].status == Done ensures s.gens[g].burst != s.gens[id].burst {
      assert NameFits(s, g, s.gens[g]);
    }
  }

  lemma ReleasedGiven(s: Store, s': Store, id: GenId, closed: bool)
    requires ActiveNamed(s) && ActiveHeld(s) && Named(s) && InputsKept(s) && MessagesKept(s) && NothingLost(s) && Released(s, s', id, closed)
    ensures NothingLost(s')
  {
    assert NameFits(s, id, s.gens[id]);
    forall u | u in s'.inbox && s'.inbox[u].kind == Message && s'.inbox[u].status == Completed ensures exists g :: GivenTo(s', u, g) {
      if s.inbox[u].status == Completed {
        var g :| GivenTo(s, u, g);
        assert GivenTo(s', u, g);
      } else {
        assert RowKept(s, s.inbox[u]) && InBurst(s, u, s.gens[id].burst);
        assert GivenTo(s', u, id);
      }
    }
  }

  lemma ReleasedControls(s: Store, s': Store, id: GenId, closed: bool)
    requires OneControl(s) && Released(s, s', id, closed)
    ensures OneControl(s')
  {
  }

  lemma ReleasedKeeps(s: Store, s': Store, id: GenId, closed: bool)
    requires Inv(s) && Released(s, s', id, closed)
    ensures Inv(s')
  {
    hide *;
    InvParts(s);
    ReleasedTurns(s, s', id, closed);
    ReleasedMessages(s, s', id, closed);
    ReleasedInputs(s, s', id, closed);
    ReleasedClosed(s, s', id, closed);
    ReleasedGiven(s, s', id, closed);
    ReleasedControls(s, s', id, closed);
    PartsInv(s');
  }

  lemma InvParts(s: Store)
    requires Inv(s)
    ensures TurnInv(s) && ActiveNamed(s) && ActiveHeld(s) && Bounded(s) && Named(s) && BurstsKnown(s)
    ensures MessagesKept(s) && InputsKept(s) && ClosedOnce(s) && NothingLost(s) && OneControl(s)
  {
  }

  lemma PartsInv(s: Store)
    requires TurnInv(s) && MessagesKept(s) && InputsKept(s) && ClosedOnce(s) && NothingLost(s) && OneControl(s)
    ensures Inv(s)
  {
  }

  lemma CompleteReleases(s: Store, id: GenId, revision: nat)
    requires ActiveHeld(s) && Running(s, id) && s.gens[id].revision == revision
    ensures Released(s, After(s, CompleteGen(s, id, revision)), id, true)
  {
  }

  lemma FailReleases(s: Store, id: GenId, maxAttempts: Option<nat>, minimum: Option<nat>, now: int)
    requires ActiveHeld(s) && Running(s, id)
    ensures Released(s, After(s, FailGen(s, id, maxAttempts, minimum, now)), id, maxAttempts.Some? && BurstAttempts(s, s.gens[id].burst) >= maxAttempts.value)
  {
    hide BurstAttempts;
    hide RetryDelay;
  }

  lemma InterruptReleases(s: Store, id: GenId, now: int)
    requires ActiveHeld(s) && Running(s, id)
    ensures Released(s, Interrupt(s, id, now), id, false)
  {
  }

  lemma {:induction false} InterruptAllKeeps(s: Store, rows: seq<GenId>, now: int)
    requires Inv(s)
    ensures Inv(InterruptAll(s, rows, now))
    ensures forall g | Running(InterruptAll(s, rows, now), g) :: Running(s, g) && g !in rows
    decreases |rows|
  {
    hide Inv;
    if rows != [] {
      var s1 := Interrupt(s, rows[0], now);
      InvParts(s);
      if Running(s, rows[0]) {
        InterruptReleases(s, rows[0], now);
        ReleasedKeeps(s, s1, rows[0], false);
      }
      assert forall g :: Running(s1, g) ==> Running(s, g) && g != rows[0];
      hide Interrupt;
      hide Running;
      InterruptAllKeeps(s1, rows[1..], now);
      assert forall g | g in rows :: g == rows[0] || g in rows[1..];
    }
  }

  // ----- A generation starts -----

  lemma NextIsLarger(s: Store, chat: Chat)
    ensures forall g | g in s.gens && s.gens[g].chat == chat :: s.gens[g].revision < NextRevision(s, chat)
    ensures chat in s.turns ==> s.turns[chat].revision < NextRevision(s, chat)
  {
    assert forall g | g in s.gens && s.gens[g].chat == chat :: s.gens[g].revision in Revisions(s, chat);
    hide Greatest;
  }

  /** A new active generation under a revision above every earlier one of its chat. */
  ghost predicate Started(s: Store, s': Store, id: GenId, chat: Chat) {
    && id !in s.gens && s'.inbox == s.inbox && id in s'.gens && s'.gens == s.gens[id := s'.gens[id]]
    && chat in s'.turns && s'.turns == s.turns[chat := s'.turns[chat]]
    && var g, t' := s'.gens[id], s'.turns[chat];
    && g.status == Active && g.chat == chat && NameFits(s, id, g)
    && t'.active == Some(id) && t'.revision == g.revision && t'.burst == (if id.Interactive? then Some(g.burst) else None)
    && (chat in s.turns ==> s.turns[chat].active.None? && s.turns[chat].burst == t'.burst && s.turns[chat].revision <= t'.revision)
    && (chat !in s.turns ==> t'.burst.None?)
    && (forall h | h in s.gens && s.gens[h].chat == chat :: s.gens[h].revision < g.revision)
    && (if id.Interactive?
        then id in s'.inputs && s'.inputs == s.inputs[id := s'.inputs[id]] && forall u :: u in s'.inputs[id] <==> Waits(s, u, chat, g.burst)
        else s'.inputs == s.inputs)
  }

  lemma StartedTurns(s: Store, s': Store, id: GenId, chat: Chat)
    requires TurnInv(s) && Started(s, s', id, chat)
    ensures TurnInv(s')
  {
    forall g | g in s.gens ensures g != id && NameFits(s', g, s'.gens[g]) && s.gens[g].chat in s.turns && BoundedBy(s.turns[s.gens[g].chat], g, s.gens[g].revision) {
      assert NameFits(s, g, s.gens[g]);
    }
    forall g | Running(s', g) && g != id ensures HoldsTurn(s', s'.gens[g].chat, g) {
      assert Running(s, g) && HoldsTurn(s, s.gens[g].chat, g);
    }
  }

  lemma StartedMessages(s: Store, s': Store, id: GenId, chat: Chat)
    requires MessagesKept(s) && Started(s, s', id, chat)
    ensures MessagesKept(s')
  {
    forall u | u in s'.inbox ensures RowKept(s', s'.inbox[u]) {
      assert RowKept(s, s.inbox[u]);
    }
  }

  lemma StartedInputs(s: Store, s': Store, id: GenId, chat: Chat)
    requires BurstsKnown(s) && MessagesKept(s) && InputsKept(s) && Started(s, s', id, chat)
    ensures InputsKept(s')
  {
    forall u, b ensures InBurst(s', u, b) == InBurst(s, u, b) {}
    forall g | g != id ensures Running(s', g) ==> Running(s, g) && s'.gens[g] == s.gens[g] {}
    forall u | InBurst(s, u, s'.gens[id].burst) && id.Interactive? ensures Waits(s, u, chat, s'.gens[id].burst) {
      assert RowKept(s, s.inbox[u]);
    }
  }

  lemma StartedClosed(s: Store, s': Store, id: GenId, chat: Chat)
    requires ClosedOnce(s) && Started(s, s', id, chat)
    ensures ClosedOnce(s')
  {
  }

  lemma StartedGiven(s: Store, s': Store, id: GenId, chat: Chat)
    requires NothingLost(s) && InputsKept(s) && Started(s, s', id, chat)
    ensures NothingLost(s')
  {
    forall u | u in s'.inbox && s'.inbox[u].kind == Message && s'.inbox[u].status == Completed ensures exists g :: GivenTo(s', u, g) {
      var g :| GivenTo(s, u, g);
      assert GivenTo(s', u, g);
    }
  }

  lemma StartedKeeps(s: Store, s': Store, id: GenId, chat: Chat)
    requires Inv(s) && Started(s, s', id, chat)
    ensures Inv(s')
  {
    InvParts(s);
    assert OneControl(s');
    hide *;
    StartedTurns(s, s', id, chat);
    StartedMessages(s, s', id, chat);
    StartedInputs(s, s', id, chat);
    StartedClosed(s, s', id, chat);
    StartedGiven(s, s', id, chat);
    PartsInv(s');
  }

  /** Reserving never collides with an older identifier unless another chat reserved the same run at the same revision. */
  lemma AutomationStarts(s: Store, chat: Chat, run: RunId, now: int)
    requires TurnInv(s)
    ensures var r := ReserveAutomation(s, chat, run, now);
      r.Committed? && r.value.Some? ==> Started(s, r.store, r.value.value, chat)
  {
    NextIsLarger(s, chat);
    hide NextRevision;
  }

  lemma NoAttemptYet(s: Store, chat: Chat)
    requires TurnInv(s) && chat in s.turns && s.turns[chat].burst.Some? && s.turns[chat].active.None?
    ensures forall g | g in s.gens && s.gens[g].chat == chat :: s.gens[g].revision < s.turns[chat].revision
    ensures Attempts(s, s.turns[chat].burst.value, s.turns[chat].revision) == 0
  {
    var b, r := s.turns[chat].burst.value, s.turns[chat].revision;
    forall g | g in s.gens ensures s.gens[g].chat == chat ==> s.gens[g].revision < r
                           ensures !(s.gens[g].burst == b && s.gens[g].revision == r)
    {
      assert NameFits(s, g, s.gens[g]) && BoundedBy(s.turns[s.gens[g].chat], g, s.gens[g].revision);
    }
    assert (set g | g in s.gens && s.gens[g].burst == b && s.gens[g].revision == r) == {};
  }

  /** Claiming work hands the whole open burst to a generation that is always a first attempt. */
  lemma ClaimStarts(s: Store, chat: Chat, rows: seq<UpdateId>, now: int)
    requires TurnInv(s)
    ensures var r := ClaimWork(s, chat, rows, now);
      && (r.Committed? && r.value.None? ==> r.store == s)
      && (r.Committed? && r.value.Some? ==>
            Started(s, r.store, r.value.value, chat) && r.value.value == Interactive(s.turns[chat].burst.value, s.turns[chat].revision, 1))
  {
    if Claimable(s, chat, now) {
      NoAttemptYet(s, chat);
      assert BurstsKnown(s);
      hide TurnInv;
      hide Attempts;
    }
  }

  /** The claim raises only if it is given the wrong rows: the repeat-attempt identifier is never used, and no
      identifier is taken. */
  lemma ClaimNeverCollides(s: Store, chat: Chat, rows: seq<UpdateId>, now: int)
    requires TurnInv(s) && Claimable(s, chat, now) && Lists(s, rows, chat, s.turns[chat].burst.value)
    ensures ClaimWork(s, chat, rows, now).Committed?
    ensures Interactive(s.turns[chat].burst.value, s.turns[chat].revision, 1) !in s.gens
  {
    NoAttemptYet(s, chat);
    var id := Interactive(s.turns[chat].burst.value, s.turns[chat].revision, 1);
    assert s.turns[chat].burst.value.Inbound? && s.turns[chat].burst.value.chat == chat;
    assert id in s.gens ==> NameFits(s, id, s.gens[id]);
    hide Attempts;
    hide Lists;
  }

  // ----- A message arrives -----

  /** A new message joins the open burst of its chat, or opens one, and supersedes the active generation. */
  ghost predicate Arrived(s: Store, s': Store, update: UpdateId, chat: Chat) {
    && update !in s.inbox && chat in s'.turns && s'.turns == s.turns[chat := s'.turns[chat]]
    && var t' := s'.turns[chat];
    && t'.active.None? && (chat in s.turns ==> s.turns[chat].revision < t'.revision)
    && t'.burst == (if chat in s.turns && s.turns[chat].burst.Some? then s.turns[chat].burst else Some(Inbound(chat, update)))
    && (forall g | g in s.gens && s.gens[g].chat == chat :: s.gens[g].revision < t'.revision)
    && update in s'.inbox && s'.inbox == s.inbox[update := s'.inbox[update]]
    && s'.inbox[update].kind == Message && s'.inbox[update].status == Pending && s'.inbox[update].chat == chat && s'.inbox[update].burst == t'.burst
    && s'.gens.Keys == s.gens.Keys
    && (forall g | g in s.gens :: s'.gens[g] == if HoldsTurn(s, chat, g) then s.gens[g].(status := Superseded, cleanup := true) else s.gens[g])
    && s'.inputs == s.inputs
  }

  lemma EnqueueArrives(s: Store, update: UpdateId, chat: Chat, now: int, debounce: int)
    requires TurnInv(s) && update !in s.inbox
    ensures Arrived(s, After(s, Enqueue(s, update, chat, Message, now, debounce)), update, chat)
  {
    NextIsLarger(s, chat);
    hide NextRevision;
    forall g | g in s.gens && s.gens[g].chat == chat ensures chat in s.turns && s.gens[g].revision <= s.turns[chat].revision {
      assert BoundedBy(s.turns[s.gens[g].chat], g, s.gens[g].revision);
    }
    assert ActiveNamed(s);
    hide TurnInv;
  }

  lemma ArrivedTurns(s: Store, s': Store, update: UpdateId, chat: Chat)
    requires TurnInv(s) && Arrived(s, s', update, chat)
    ensures TurnInv(s')
  {
    forall g | g in s'.gens ensures NameFits(s', g, s'.gens[g])
      ensures s'.gens[g].chat in s'.turns && BoundedBy(s'.turns[s'.gens[g].chat], g, s'.gens[g].revision)
    {
      assert NameFits(s, g, s.gens[g]) && BoundedBy(s.turns[s.gens[g].chat], g, s.gens[g].revision);
    }
    forall g | Running(s', g) ensures HoldsTurn(s', s'.gens[g].chat, g) {
      assert Running(s, g) && HoldsTurn(s, s.gens[g].chat, g);
    }
  }

  lemma ArrivedMessages(s: Store, s': Store, update: UpdateId, chat: Chat)
    requires BurstsKnown(s) && MessagesKept(s) && Arrived(s, s', update, chat)
    ensures MessagesKept(s')
  {
    forall u | u in s'.inbox ensures RowKept(s', s'.inbox[u]) {
      if u in s.inbox {
        assert RowKept(s, s.inbox[u]);
      }
    }
  }

  lemma ArrivedInputs(s: Store, s': Store, update: UpdateId, chat: Chat)
    requires TurnInv(s) && InputsKept(s) && Arrived(s, s', update, chat)
    ensures InputsKept(s')
  {
    forall u, b ensures InBurst(s', u, b) == (InBurst(s, u, b) || (u == update && s'.turns[chat].burst == Some(b))) {}
    forall g | Running(s', g) ensures Running(s, g) && s'.gens[g] == s.gens[g] && s'.gens[g].chat != chat && (g.Interactive? ==> s'.turns[chat].burst != Some(s.gens[g].burst)) {
      assert HoldsTurn(s, s.gens[g].chat, g) && NameFits(s, g, s.gens[g]);
    }
    hide TurnInv;
  }

  lemma ArrivedClosed(s: Store, s': Store, update: UpdateId, chat: Chat)
    requires TurnInv(s) && ClosedOnce(s) && Arrived(s, s', update, chat)
    ensures ClosedOnce(s')
  {
    forall g | g in s.gens && s'.gens[g].status == Done ensures !OpenBurst(s', s.gens[g].chat, s.gens[g].burst) && s.gens[g].status == Done && s'.gens[g].burst == s.gens[g].burst {
      assert NameFits(s, g, s.gens[g]);
    }
  }

  lemma ArrivedGiven(s: Store, s': Store, update: UpdateId, chat: Chat)
    requires ActiveNamed(s) && NothingLost(s) && Arrived(s, s', update, chat)
    ensures NothingLost(s')
  {
    forall u | u in s'.inbox && s'.inbox[u].kind == Message && s'.inbox[u].status == Completed ensures exists g :: GivenTo(s', u, g) {
      var g :| GivenTo(s, u, g);
      assert GivenTo(s', u, g);
    }
  }

  lemma ArrivedKeeps(s: Store, s': Store, update: UpdateId, chat: Chat)
    requires Inv(s) && Arrived(s, s', update, chat)
    ensures Inv(s')
  {
    InvParts(s);
    assert OneControl(s') by {
      hide TurnInv;
      hide MessageInv;
    }
    hide *;
    ArrivedTurns(s, s', update, chat);
    ArrivedMessages(s, s', update, chat);
    ArrivedInputs(s, s', update, chat);
    ArrivedClosed(s, s', update, chat);
    ArrivedGiven(s, s', update, chat);
    PartsInv(s');
  }

  // ----- Calls that leave turns alone -----

  /** At most the clean-up mark of generations and the handling of control updates changes. */
  ghost predicate Aside(s: Store, s': Store) {
    && s'.turns == s.turns && s'.inputs == s.inputs && s'.gens.Keys == s.gens.Keys
    && (forall g | g in s.gens :: s'.gens[g] == s.gens[g].(cleanup := s'.gens[g].cleanup))
    && s.inbox.Keys <= s'.inbox.Keys
    && (forall u | u in s'.inbox && u !in s.inbox :: s'.inbox[u].kind == Control && s'.inbox[u].burst.None?)
    && (forall u | u in s.inbox :: if s.inbox[u].kind == Message then s'.inbox[u] == s.inbox[u] else s'.inbox[u].kind == Control && s'.inbox[u].burst.None?)
  }

  lemma AsideTurns(s: Store, s': Store)
    requires TurnInv(s) && Aside(s, s')
    ensures TurnInv(s')
  {
    forall g | g in s'.gens ensures NameFits(s', g, s'.gens[g]) && s'.gens[g].chat in s'.turns && BoundedBy(s'.turns[s'.gens[g].chat], g, s'.gens[g].revision) {
      assert NameFits(s, g, s.gens[g]) && BoundedBy(s.turns[s.gens[g].chat], g, s.gens[g].revision);
    }
    forall g | Running(s', g) ensures HoldsTurn(s', s'.gens[g].chat, g) {
      assert Running(s, g);
    }
  }

  lemma AsideMessages(s: Store, s': Store)
    requires MessageInv(s) && Aside(s, s')
    ensures MessageInv(s')
  {
    forall u | u in s'.inbox ensures RowKept(s', s'.inbox[u]) && (u in s.inbox ==> RowKept(s, s.inbox[u])) {}
    forall u, b ensures InBurst(s', u, b) == InBurst(s, u, b) {
      assert u in s.inbox ==> RowKept(s, s.inbox[u]);
    }
    forall g ensures Running(s', g) == Running(s, g) {}
    forall u | u in s'.inbox && s'.inbox[u].kind == Message && s'.inbox[u].status == Completed ensures exists g :: GivenTo(s', u, g) {
      var g :| GivenTo(s, u, g);
      assert GivenTo(s', u, g);
    }
  }

  lemma AsideKeeps(s: Store, s': Store)
    requires Inv(s) && Aside(s, s') && OneControl(s')
    ensures Inv(s')
  {
    InvParts(s);
    assert MessageInv(s);
    hide *;
    AsideTurns(s, s');
    AsideMessages(s, s');
    MakeInv(s');
  }

  lemma MakeInv(s: Store)
    requires TurnInv(s) && MessageInv(s) && OneControl(s)
    ensures Inv(s)
  {
  }

  /** A stored row that is not a control message carries no burst, so handling it leaves messages alone. */
  lemma ControlRows(s: Store)
    requires MessagesKept(s)
    ensures forall u | u in s.inbox && s.inbox[u].kind == Control :: s.inbox[u].burst.None?
    ensures forall u | u in s.inbox && s.inbox[u].status == Processing :: s.inbox[u].kind == Control
  {
    assert forall u | u in s.inbox :: RowKept(s, s.inbox[u]);
  }
}
