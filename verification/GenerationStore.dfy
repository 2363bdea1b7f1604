/** The chat tables as they are held: updated in place, one method per store call. */
module GenerationStore {
  import opened Wrappers
  import opened Generations
  import opened GenerationInvariant

  ghost predicate Outcome<T(!new)>(before: Store, step: Step<T>, after: Store, r: Result<T>) {
    match step
    case Aborted => r == Raised && after == before
    case Committed(s, v) => r == Ok(v) && after == s
  }

  class OnboardingStore {
    const debounce: nat
    var inbox: map<UpdateId, Update>
    var turns: map<Chat, Turn>
    var gens: map<GenId, Gen>
    var inputs: map<GenId, seq<UpdateId>>
    var events: map<Slot, EventStatus>

    function State(): Store
      reads this
    {
      Store(inbox, turns, gens, inputs, events)
    }

    constructor (debounce: nat)
      ensures State() == EMPTY && this.debounce == debounce
    {
      this.debounce := debounce;
      inbox, turns, gens, inputs, events := map[], map[], map[], map[], map[];
    }

    /** The aggregate query for the greatest revision of a chat. */
    method MaxRevision(chat: Chat) returns (m: nat)
      ensures m == Greatest(Revisions(State(), chat))
    {
      m := 0;
      var rest := gens.Keys;
      while rest != {}
        invariant rest <= gens.Keys
        invariant forall g | g in gens && g !in rest && gens[g].chat == chat :: gens[g].revision <= m
        invariant m == 0 || m in Revisions(State(), chat)
        decreases |rest|
      {
        var g: GenId :| g in rest;
        if gens[g].chat == chat && gens[g].revision > m {
          m := gens[g].revision;
        }
        rest := rest - {g};
      }
      GreatestIs(Revisions(State(), chat), m);
    }

    method NewRevision(chat: Chat) returns (revision: nat)
      ensures revision == NextRevision(State(), chat)
    {
      var persisted := MaxRevision(chat);
      var current := if chat in turns then turns[chat].revision else 0;
      return (if persisted < current then current else persisted) + 1;
    }

    method Supersede(id: GenId)
      modifies this`gens
      ensures State() == if Running(old(State()), id) then SetGen(old(State()), id, Retire(old(State()).gens[id], Superseded)) else old(State())
    {
      if id in gens && gens[id].status == Active {
        gens := gens[id := gens[id].(status := Superseded, cleanup := true)];
      }
    }

    /** The turn of a chat that gets another message. */
    method NextTurn(chat: Chat, update: UpdateId, now: int) returns (t: Turn)
      ensures t == TurnAfterMessage(State(), chat, update, now + debounce)
    {
      if chat !in turns || turns[chat].burst.None? {
        var revision := NewRevision(chat);
        return Turn(Some(Inbound(chat, update)), revision, now + debounce, None);
      }
      return Turn(turns[chat].burst, turns[chat].revision + 1, now + debounce, None);
    }

    method Receive(update: UpdateId, chat: Chat, kind: Kind, now: int) returns (accepted: bool)
      modifies this`inbox, this`turns, this`gens
      ensures Outcome(old(State()), Enqueue(old(State()), update, chat, kind, now, debounce), State(), Ok(accepted))
    {
      if update in inbox {
        return false;
      }
      if kind != Message {
        inbox := inbox[update := Update(chat, kind, Pending, 0, now, None)];
        return true;
      }
      ghost var before := State();
      if chat in turns && turns[chat].active.Some? {
        Supersede(turns[chat].active.value);
      }
      SupersedeAgain(before, chat);
      SameTurn(before, State(), chat, update, now + debounce);
      hide TurnAfterMessage;
      hide SupersedeActive;
      hide Running;
      var turn := NextTurn(chat, update, now);
      turns := turns[chat := turn];
      inbox := inbox[update := Update(chat, kind, Pending, 0, now, turn.burst)];
      return true;
    }

    method Reserve(chat: Chat, run: RunId, now: int) returns (r: Result<Option<GenId>>)
      modifies this`turns, this`gens
      ensures Outcome(old(State()), ReserveAutomation(old(State()), chat, run, now), State(), r)
    {
      if chat in turns && (turns[chat].burst.Some? || turns[chat].active.Some?) {
        return Ok(None);
      }
      var revision := NewRevision(chat);
      hide NextRevision;
      var id := Automation(run, revision);
      if id in gens {
        return Raised;
      }
      gens := gens[id := Gen(AutoBurst(run, revision), chat, revision, Active, false)];
      turns := turns[chat := Turn(None, revision, if chat in turns then turns[chat].quietUntil else now, Some(id))];
      return Ok(Some(id));
    }

    /** `claim_next_work` for the chat whose turn is ready; `rows` are its unfinished messages. */
    method Claim(chat: Chat, rows: seq<UpdateId>, now: int) returns (r: Result<Option<GenId>>)
      modifies this`turns, this`gens, this`inputs
      ensures Outcome(old(State()), ClaimWork(old(State()), chat, rows, now), State(), r)
    {
      if !Claimable(State(), chat, now) {
        return Ok(None);
      }
      if !Lists(State(), rows, chat, turns[chat].burst.value) {
        return Raised;
      }
      if rows == [] {
        return Ok(None);
      }
      var turn := turns[chat];
      var attempt := Attempts(State(), turn.burst.value, turn.revision) + 1;
      hide Attempts;
      hide Lists;
      var id := Interactive(turn.burst.value, turn.revision, attempt);
      if id in gens {
        return Raised;
      }
      gens := gens[id := Gen(turn.burst.value, chat, turn.revision, Active, false)];
      var given: seq<UpdateId> := [];
      for i := 0 to |rows|
        invariant given == rows[..i]
      {
        given := given + [rows[i]];
      }
      assert given == rows;
      inputs := inputs[id := given];
      turns := turns[chat := turn.(active := Some(id))];
      return Ok(Some(id));
    }

    method Close(burst: Burst)
      modifies this`inbox
      ensures State() == CloseBurst(old(State()), burst)
    {
      inbox := map u | u in inbox :: if inbox[u].burst == Some(burst) then inbox[u].(status := Completed) else inbox[u];
    }

    method Complete(id: GenId, revision: nat) returns (done: bool)
      modifies this`inbox, this`turns, this`gens
      ensures Outcome(old(State()), CompleteGen(old(State()), id, revision), State(), Ok(done))
    {
      if !Running(State(), id) || gens[id].revision != revision {
        return false;
      }
      var g := gens[id];
      gens := gens[id := g.(status := Done)];
      Close(g.burst);
      if HoldsTurn(State(), g.chat, id) {
        turns := turns[g.chat := turns[g.chat].(burst := None, active := None)];
      }
      return true;
    }

    method Abandon(id: GenId, now: int)
      requires Running(State(), id)
      modifies this`inbox, this`turns, this`gens
      ensures State() == FailForGood(old(State()), id, now)
    {
      var g := gens[id];
      gens := gens[id := g.(status := Failed)];
      Close(g.burst);
      if HoldsTurn(State(), g.chat, id) {
        turns := turns[g.chat := turns[g.chat].(burst := None, active := None, quietUntil := now)];
      }
    }

    method Reopen(id: GenId, least: nat, quiet: int)
      requires Running(State(), id)
      modifies this`turns, this`gens
      ensures State() == FailForNow(old(State()), id, least, quiet)
    {
      var g := gens[id];
      gens := gens[id := g.(status := Failed)];
      if HoldsTurn(State(), g.chat, id) {
        turns := turns[g.chat := turns[g.chat].(revision := Larger(turns[g.chat].revision + 1, least), active := None, quietUntil := quiet)];
      }
    }

    method Fail(id: GenId, maxAttempts: Option<nat>, minimum: Option<nat>, now: int) returns (done: bool)
      modifies this`inbox, this`turns, this`gens
      ensures Outcome(old(State()), FailGen(old(State()), id, maxAttempts, minimum, now), State(), Ok(done))
    {
      hide FailForGood;
      hide FailForNow;
      hide BurstAttempts;
      hide RetryDelay;
      if !Running(State(), id) {
        return false;
      }
      var attempts := BurstAttempts(State(), gens[id].burst);
      if maxAttempts.Some? && attempts >= maxAttempts.value {
        Abandon(id, now);
      } else {
        Reopen(id, if minimum.Some? then minimum.value else 0, if maxAttempts.Some? then now + RetryDelay(attempts) else now);
      }
      return true;
    }

    method InterruptOne(id: GenId, now: int)
      modifies this`turns, this`gens, this`events
      ensures State() == Interrupt(old(State()), id, now)
    {
      if !Running(State(), id) {
        return;
      }
      var g := gens[id];
      events := map e | e in events :: if e.gen == id && events[e] == Reserved then Unknown else events[e];
      gens := gens[id := g.(status := Superseded, cleanup := true)];
      if HoldsTurn(State(), g.chat, id) {
        turns := turns[g.chat := turns[g.chat].(revision := turns[g.chat].revision + 1, active := None, quietUntil := now)];
      }
    }

    /** `recover_interrupted_generations`: supersede every active generation and reopen its burst. */
    method Recover(ids: seq<GenId>, now: int) returns (r: Result<()>)
      modifies this`turns, this`gens, this`events
      ensures Outcome(old(State()), RecoverGens(old(State()), ids, now), State(), r)
    {
      hide Interrupt;
      ghost var before := State();
      if (exists i | 0 <= i < |ids| :: ids[i] !in gens) || (exists g | g in gens :: gens[g].status == Active && g !in ids) {
        return Raised;
      }
      for i := 0 to |ids|
        invariant InterruptAll(State(), ids[i..], now) == InterruptAll(before, ids, now)
      {
        assert ids[i..][0] == ids[i] && ids[i..][1..] == ids[i + 1..];
        InterruptOne(ids[i], now);
      }
      return Ok(());
    }

    method FinishCleanup(id: GenId) returns (done: bool)
      modifies this`gens
      ensures Outcome(old(State()), CleanUp(old(State()), id), State(), Ok(done))
    {
      if id !in gens || !gens[id].cleanup {
        return false;
      }
      gens := gens[id := gens[id].(cleanup := false)];
      return true;
    }

    method ReserveSlot(id: GenId, revision: nat, sequence: nat) returns (reserved: bool)
      modifies this`events
      ensures Outcome(old(State()), ReserveFrame(old(State()), id, revision, sequence), State(), Ok(reserved))
    {
      if !Running(State(), id) || gens[id].revision != revision || Slot(id, sequence) in events {
        return false;
      }
      events := events[Slot(id, sequence) := Reserved];
      return true;
    }

    method Settle(slot: Slot, status: EventStatus) returns (settled: bool)
      modifies this`events
      ensures Outcome(old(State()), SettleFrame(old(State()), slot, status), State(), Ok(settled))
    {
      if slot !in events || events[slot] != Reserved {
        return false;
      }
      events := events[slot := status];
      return true;
    }

    // ----- Control updates -----

    method StartControl(update: UpdateId, now: int) returns (started: bool)
      modifies this`inbox
      ensures Outcome(old(State()), ClaimControl(old(State()), update, now), State(), Ok(started))
    {
      if !ControlReady(State(), update, now) {
        return false;
      }
      inbox := inbox[update := inbox[update].(status := Processing, attempts := inbox[update].attempts + 1)];
      return true;
    }

    method FinishControl(update: UpdateId)
      modifies this`inbox
      ensures State() == CompleteControl(old(State()), update)
    {
      if InProgress(State(), update) {
        inbox := inbox[update := inbox[update].(status := Completed)];
      }
    }

    method PutOffControl(update: UpdateId, now: int)
      modifies this`inbox
      ensures State() == RetryControl(old(State()), update, now)
    {
      hide ControlDelay;
      if InProgress(State(), update) {
        inbox := inbox[update := inbox[update].(status := Pending, availableAt := now + ControlDelay(inbox[update].attempts))];
      }
    }

    method TakeBackControls(now: int)
      modifies this`inbox
      ensures State() == ResetControls(old(State()), now)
    {
      inbox := map u | u in inbox :: if inbox[u].status == Processing then inbox[u].(status := Pending, availableAt := now) else inbox[u];
    }
  }

  lemma GreatestIs(values: set<nat>, m: nat)
    requires (forall v | v in values :: v <= m) && (m == 0 || m in values)
    ensures Greatest(values) == m
  {
    assert values != {} ==> Greatest(values) in values;
  }

  lemma SupersedeAgain(s: Store, chat: Chat)
    ensures SupersedeActive(s, chat) ==
      if chat in s.turns && s.turns[chat].active.Some? && Running(s, s.turns[chat].active.value)
      then SetGen(s, s.turns[chat].active.value, Retire(s.gens[s.turns[chat].active.value], Superseded)) else s
  {
    assert chat in s.turns && s.turns[chat].active.Some? && s.turns[chat].active.value in s.gens ==>
      s.gens == s.gens[s.turns[chat].active.value := s.gens[s.turns[chat].active.value]];
  }

  lemma SameTurn(s: Store, s': Store, chat: Chat, update: UpdateId, quiet: int)
    requires s'.turns == s.turns && s'.gens.Keys == s.gens.Keys
    requires forall g | g in s.gens :: s'.gens[g].chat == s.gens[g].chat && s'.gens[g].revision == s.gens[g].revision
    ensures TurnAfterMessage(s', chat, update, quiet) == TurnAfterMessage(s, chat, update, quiet)
  {
    assert Revisions(s', chat) == Revisions(s, chat);
    hide Greatest;
  }
}
