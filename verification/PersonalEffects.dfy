/** What each repository call accepts and the rows it leaves: said of stored columns. */
module PersonalEffects {
  import opened Wrappers
  import opened PersonalData
  import opened PersonalPurge
  import opened PersonalGovernance

  /** An owner without a settings row captures, at governance revision zero. */
  function Capturing(t: Tables, owner: Owner): bool {
    owner in t.settings ==> t.settings[owner].capture
  }

  function GovernanceOf(t: Tables, owner: Owner): nat {
    if owner in t.settings then t.settings[owner].revision else 0
  }

  /** The session is stored under this very generation and revision. */
  predicate SessionIs(t: Tables, s: SessionKey, gen: Id, revision: nat) {
    s in t.sessions && t.sessions[s].Some? && t.sessions[s].value.fence.Generation? && t.sessions[s].value.fence.id == gen && t.sessions[s].value.revision == revision
  }

  // ----- Staging -----

  /** Staging is refused while the owner does not capture, under any other governance revision, and, for a turn with a
      revision, unless the session is still the turn's own. */
  predicate MayStage(t: Tables, owner: Owner, session: nat, gen: Id, governance: nat, revision: Option<nat>) {
    Capturing(t, owner) && GovernanceOf(t, owner) == governance && (revision.Some? ==> SessionIs(t, SessionKey(owner, session), gen, revision.value))
  }

  /** The rows a control may mean: the one it names, or for anything but an addition a shown or agent-disabled row of its
      topic, when it replaces, and of its very content otherwise. */
  predicate Means(t: Tables, owner: Owner, c: Control, id: Id) {
    && id in t.memories && t.memories[id].owner == owner && var m := t.memories[id];
    if c.named.Some? then id == c.named.value
    else
      && !c.action.Add? && (m.status.Active? || m.status.Archived? || m.status.DisabledByAgent?)
      && (c.action.Upsert? ==> m.topic == c.topic) && (!c.action.Upsert? ==> m.fingerprint == c.fingerprint)
  }

  predicate FindsRight(t: Tables, owner: Owner, c: Control) {
    (c.found.Some? ==> Means(t, owner, c, c.found.value)) && (c.found.None? ==> forall id | id in t.memories :: !Means(t, owner, c, id))
  }

  predicate Standing(m: Memory) {
    m.status.Active? || m.status.Archived? || m.status.DisabledByAgent? || m.status.Provisional?
  }

  /** A control is passed over when the row it names is not there, when its owner disabled its content or the row it
      means, and, unless it means a row, when its content is shown, agent-disabled or staged already. */
  predicate PassedOver(t: Tables, owner: Owner, c: Control) {
    || (c.named.Some? && c.found.None?)
    || (exists id | id in t.memories :: t.memories[id].owner == owner && t.memories[id].fingerprint == c.fingerprint && t.memories[id].status.DisabledByUser?)
    || (c.found.Some? && c.found.value in t.memories && t.memories[c.found.value].status.DisabledByUser?)
    || (c.found.None? && exists id | id in t.memories :: t.memories[id].owner == owner && t.memories[id].fingerprint == c.fingerprint && Standing(t.memories[id]))
  }

  /** What one control leaves: unless it is passed over, a provisional row that records its action, the row it means, its
      turn and the governance revision; a repeated one only adds sources. */
  ghost predicate Stages(t: Tables, t': Tables, owner: Owner, session: nat, gen: Id, c: Control, now: int) {
    t' == t.(memories :=
      if PassedOver(t, owner, c) then t.memories
      else if c.id in t.memories then t.memories[c.id := t.memories[c.id].(sources := t.memories[c.id].sources + c.sources)]
      else t.memories[c.id := Memory(owner, c.topic, c.fingerprint, Provisional, c.archived, Some(gen), session, GovernanceOf(t, owner), c.action, c.found, c.sources, now)])
  }

  lemma StageOneExactly(t: Tables, owner: Owner, session: nat, gen: Id, c: Control, now: int)
    ensures Stages(t, StageOne(t, owner, session, gen, c, now), owner, session, gen, c, now)
  {
    assert UserDisabled(t, owner, c.fingerprint) <==> exists id | id in t.memories :: t.memories[id].owner == owner && t.memories[id].fingerprint == c.fingerprint && t.memories[id].status.DisabledByUser?;
    assert Duplicate(t, owner, c.fingerprint) <==> exists id | id in t.memories :: t.memories[id].owner == owner && t.memories[id].fingerprint == c.fingerprint && Standing(t.memories[id]);
    hide UserDisabled;
    hide Duplicate;
  }

  lemma FindsExactly(t: Tables, owner: Owner, c: Control)
    ensures FoundRight(t, owner, c) <==> FindsRight(t, owner, c)
  {
  }

  ghost predicate StagesInTurn(t: Tables, t': Tables, owner: Owner, session: nat, gen: Id, controls: seq<Control>, now: int, path: seq<Tables>) {
    && |path| == |controls| + 1 && path[0] == t && path[|controls|] == t'
    && forall i | 0 <= i < |controls| :: FindsRight(path[i], owner, controls[i]) && Stages(path[i], path[i + 1], owner, session, gen, controls[i], now)
  }

  lemma {:induction false} StageAllExactly(t: Tables, owner: Owner, session: nat, gen: Id, controls: seq<Control>, now: int)
    ensures var s := StageAll(t, owner, session, gen, controls, now);
      s.Committed? ==> s.value && exists path :: StagesInTurn(t, s.tables, owner, session, gen, controls, now, path)
    decreases |controls|
  {
    if controls == [] {
      assert StagesInTurn(t, t, owner, session, gen, controls, now, [t]);
    } else {
      FindsExactly(t, owner, controls[0]);
      StageOneExactly(t, owner, session, gen, controls[0], now);
      hide FoundRight;
      hide FindsRight;
      hide StageOne;
      hide Stages;
      var t1 := StageOne(t, owner, session, gen, controls[0], now);
      StageAllExactly(t1, owner, session, gen, controls[1..], now);
      var s := StageAll(t1, owner, session, gen, controls[1..], now);
      if StageAll(t, owner, session, gen, controls, now).Committed? {
        var path :| StagesInTurn(t1, s.tables, owner, session, gen, controls[1..], now, path);
        StagesFirst(t, t1, s.tables, owner, session, gen, controls, now, path);
      }
    }
  }

  lemma StagesFirst(t: Tables, t1: Tables, t': Tables, owner: Owner, session: nat, gen: Id, controls: seq<Control>, now: int, path: seq<Tables>)
    requires controls != [] && FindsRight(t, owner, controls[0]) && Stages(t, t1, owner, session, gen, controls[0], now)
    requires StagesInTurn(t1, t', owner, session, gen, controls[1..], now, path)
    ensures StagesInTurn(t, t', owner, session, gen, controls, now, [t] + path)
  {
    hide FindsRight;
    hide Stages;
    var all := [t] + path;
    forall i | 0 <= i < |controls| ensures FindsRight(all[i], owner, controls[i]) && Stages(all[i], all[i + 1], owner, session, gen, controls[i], now) {
      if i > 0 {
        assert controls[1..][i - 1] == controls[i] && all[i] == path[i - 1] && all[i + 1] == path[i];
      }
    }
  }

  lemma {:induction false} StagesCommits(t: Tables, t': Tables, owner: Owner, session: nat, gen: Id, controls: seq<Control>, now: int, path: seq<Tables>)
    requires StagesInTurn(t, t', owner, session, gen, controls, now, path)
    ensures StageAll(t, owner, session, gen, controls, now) == Committed(t', true)
    decreases |controls|
  {
    if controls != [] {
      assert FindsRight(path[0], owner, controls[0]) && Stages(path[0], path[1], owner, session, gen, controls[0], now);
      FindsExactly(t, owner, controls[0]);
      StageOneExactly(t, owner, session, gen, controls[0], now);
      assert path[1] == StageOne(t, owner, session, gen, controls[0], now) by {
        hide PassedOver;
      }
      hide StageOne;
      hide FoundRight;
      hide FindsRight;
      hide Stages;
      forall i | 0 <= i < |controls| - 1 ensures FindsRight(path[1..][i], owner, controls[1..][i]) && Stages(path[1..][i], path[1..][i + 1], owner, session, gen, controls[1..][i], now) {
        assert FindsRight(path[i + 1], owner, controls[i + 1]) && Stages(path[i + 1], path[i + 2], owner, session, gen, controls[i + 1], now);
      }
      StagesCommits(path[1], t', owner, session, gen, controls[1..], now, path[1..]);
    }
  }

  /** Staging, refused as a whole and without a trace, or done control by control, in one way only. */
  lemma StagingExactly(t: Tables, owner: Owner, session: nat, gen: Id, governance: nat, controls: seq<Control>, revision: Option<nat>, now: int)
    ensures var s := Stage(t, owner, session, gen, governance, controls, revision, now);
      if !MayStage(t, owner, session, gen, governance, revision) then s == Committed(t, false)
      else
        && (s.Committed? ==> s.value && exists path :: StagesInTurn(t, s.tables, owner, session, gen, controls, now, path))
        && forall t', path :: StagesInTurn(t, t', owner, session, gen, controls, now, path) ==> s == Committed(t', true)
  {
    StageAllExactly(t, owner, session, gen, controls, now);
    forall t', path | StagesInTurn(t, t', owner, session, gen, controls, now, path)
      ensures StageAll(t, owner, session, gen, controls, now) == Committed(t', true)
    {
      StagesCommits(t, t', owner, session, gen, controls, now, path);
    }
    hide StageAll;
    hide StagesInTurn;
  }

  // ----- Captured only while capture is on -----

  /** The call stages controls for the owner while the owner captures. */
  predicate Captures(t: Tables, e: Event, owner: Owner) {
    e.Staging? && e.owner == owner && Capturing(t, owner) && GovernanceOf(t, owner) == e.governance
  }

  ghost predicate AddsNothing(t: Tables, t': Tables, owner: Owner) {
    forall id | id in t'.memories && t'.memories[id].owner == owner :: id in t.memories && t.memories[id].owner == owner
  }

  lemma StageAddsForItsOwner(t: Tables, owner: Owner, session: nat, gen: Id, c: Control, now: int, other: Owner)
    requires other != owner
    ensures AddsNothing(t, StageOne(t, owner, session, gen, c, now), other)
  {
    hide UserDisabled;
    hide Duplicate;
  }

  lemma {:induction false} StageAllAddsForItsOwner(t: Tables, owner: Owner, session: nat, gen: Id, controls: seq<Control>, now: int, other: Owner)
    requires other != owner
    ensures AddsNothing(t, After(t, StageAll(t, owner, session, gen, controls, now)), other)
    decreases |controls|
  {
    if controls != [] {
      StageAddsForItsOwner(t, owner, session, gen, controls[0], now, other);
      hide StageOne;
      hide FoundRight;
      StageAllAddsForItsOwner(StageOne(t, owner, session, gen, controls[0], now), owner, session, gen, controls[1..], now, other);
    }
  }

  lemma SaveAddsNothing(t: Tables, s: SessionKey, w: Writer, active: bool, messages: seq<(Id, Message)>, requested: set<Id>, rows: seq<(Id, Memory)>, owner: Owner)
    ensures AddsNothing(t, After(t, Save(t, s, w, active, messages, requested, rows)), owner)
  {
    AcceptingKeepsMemories(t, s, w, messages, requested);
    PromoteAllAdds(Accepting(t, s, w, messages, requested), rows);
    SaveIsPromotion(t, s, w, active, messages, requested, rows);
    hide Save;
    hide PromoteAll;
    hide Accepting;
  }

  ghost predicate SameOwners(t: Tables, t': Tables) {
    t'.memories.Keys == t.memories.Keys && forall id | id in t.memories :: t'.memories[id].owner == t.memories[id].owner
  }

  lemma {:induction false} PromoteAllAdds(t: Tables, rows: seq<(Id, Memory)>)
    ensures SameOwners(t, PromoteAll(t, rows))
    decreases |rows|
  {
    if rows != [] {
      PromoteAdds(t, rows[0].0, rows[0].1);
      hide Promote;
      PromoteAllAdds(Promote(t, rows[0].0, rows[0].1), rows[1..]);
    }
  }

  lemma PromoteAdds(t: Tables, id: Id, m: Memory)
    ensures SameOwners(t, Promote(t, id, m))
  {
    forall t: Tables, x, status ensures SameOwners(t, SetStatus(t, x, status)) {
      StatusAdds(t, x, status);
    }
    hide SetStatus;
    hide Governance;
  }

  lemma StatusAdds(t: Tables, id: Id, status: MemoryStatus)
    ensures SameOwners(t, SetStatus(t, id, status))
  {
  }

  /** Only staging while capture is on adds a memory of the owner. */
  lemma OnlyCaptureAdds(t: Tables, e: Event, owner: Owner)
    requires !Captures(t, e, owner)
    ensures AddsNothing(t, Apply(t, e), owner)
  {
    match e
    case Saving(s, w, active, messages, requested, rows) => SaveAddsNothing(t, s, w, active, messages, requested, rows, owner);
    case Staging(who, key, gen, governance, controls, revision, now) =>
      if who != owner {
        StageAllAddsForItsOwner(t, who, key, gen, controls, now, owner);
        hide StageAll;
      }
    case Purging(who, start, end) =>
      if start < end {
        AfterPurge(t, who, start, end);
        hide PurgeWindow;
        hide PurgeOf;
      }
    case Disabling(_, _) =>
    case Setting(_, _) =>
    case Deleting(_, _) =>
    case Pruning(_) =>
  }

  ghost predicate CaptureStaysOff(t: Tables, e: Event, owner: Owner) {
    !(e.Setting? && e.owner == owner && e.capture)
  }

  lemma OffStaysOff(t: Tables, e: Event, owner: Owner)
    requires !Capturing(t, owner) && CaptureStaysOff(t, e, owner)
    ensures !Capturing(Apply(t, e), owner)
  {
    match e
    case Saving(s, w, active, messages, requested, rows) =>
      SaveKeepsSettings(t, s, w, active, messages, requested, rows);
      hide Save;
    case Staging(who, key, gen, governance, controls, revision, now) =>
      StagingKeepsSettings(t, who, key, gen, controls, now);
      hide StageAll;
    case Purging(who, start, end) =>
      if start < end {
        AfterPurge(t, who, start, end);
        hide PurgeWindow;
        hide PurgeOf;
      }
    case Disabling(_, _) =>
    case Setting(_, _) =>
    case Deleting(_, _) =>
    case Pruning(_) =>
  }

  lemma SaveKeepsSettings(t: Tables, s: SessionKey, w: Writer, active: bool, messages: seq<(Id, Message)>, requested: set<Id>, rows: seq<(Id, Memory)>)
    ensures After(t, Save(t, s, w, active, messages, requested, rows)).settings == t.settings
  {
    AcceptingKeepsMemories(t, s, w, messages, requested);
    PromoteAllKeepsSettings(Accepting(t, s, w, messages, requested), rows);
    SaveIsPromotion(t, s, w, active, messages, requested, rows);
    hide Save;
    hide PromoteAll;
    hide Accepting;
  }

  lemma {:induction false} PromoteAllKeepsSettings(t: Tables, rows: seq<(Id, Memory)>)
    ensures PromoteAll(t, rows).settings == t.settings
    decreases |rows|
  {
    if rows != [] {
      assert Promote(t, rows[0].0, rows[0].1).settings == t.settings;
      hide Promote;
      PromoteAllKeepsSettings(Promote(t, rows[0].0, rows[0].1), rows[1..]);
    }
  }

  lemma {:induction false} StagingKeepsSettings(t: Tables, owner: Owner, session: nat, gen: Id, controls: seq<Control>, now: int)
    ensures After(t, StageAll(t, owner, session, gen, controls, now)).settings == t.settings
    decreases |controls|
  {
    if controls != [] {
      var t1 := StageOne(t, owner, session, gen, controls[0], now);
      assert t1.settings == t.settings by {
        hide UserDisabled;
        hide Duplicate;
      }
      hide StageOne;
      hide FoundRight;
      StagingKeepsSettings(t1, owner, session, gen, controls[1..], now);
    }
  }

  /** While an owner keeps capture off nothing of the owner is remembered anew, whatever is saved, staged, disabled,
      deleted or purged in the meantime. */
  lemma {:induction false} NothingIsCapturedWhileOff(t: Tables, events: seq<Event>, owner: Owner)
    requires Governed(t) && !Capturing(t, owner) && forall e | e in events :: CaptureStaysOff(t, e, owner)
    ensures AddsNothing(t, Play(t, events), owner)
    decreases |events|
  {
    if events != [] {
      var t1 := Apply(t, events[0]);
      ApplyKeeps(t, events[0]);
      assert events[0] in events;
      OffStaysOff(t, events[0], owner);
      OnlyCaptureAdds(t, events[0], owner);
      assert forall e | e in events[1..] :: e in events && CaptureStaysOff(t, e, owner);
      hide Governed;
      hide Apply;
      hide Capturing;
      NothingIsCapturedWhileOff(t1, events[1..], owner);
    }
  }
}
