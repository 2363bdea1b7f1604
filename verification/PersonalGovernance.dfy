/** The governance fence: a control staged before its owner disabled something never takes effect afterwards. */
module PersonalGovernance {
  import opened Wrappers
  import opened PersonalData
  import opened PersonalPurge

  datatype Event =
    | Saving(session: SessionKey, writer: Writer, active: bool, messages: seq<(Id, Message)>, requested: set<Id>, rows: seq<(Id, Memory)>)
    | Staging(owner: Owner, key: nat, gen: Id, governance: nat, controls: seq<Control>, revision: Option<nat>, now: int)
    | Disabling(owner: Owner, ids: set<Id>)
    | Setting(owner: Owner, capture: bool)
    | Deleting(owner: Owner, ids: set<Id>)
    | Pruning(before: int)
    | Purging(owner: Owner, start: int, end: int)

  function Apply(t: Tables, e: Event): Tables {
    match e
    case Saving(s, w, active, messages, requested, rows) => After(t, Save(t, s, w, active, messages, requested, rows))
    case Staging(owner, key, gen, governance, controls, revision, now) => After(t, Stage(t, owner, key, gen, governance, controls, revision, now))
    case Disabling(owner, ids) => After(t, DisableByUser(t, owner, ids))
    case Setting(owner, capture) => UpdateSetting(t, owner, capture)
    case Deleting(owner, ids) => ConfirmDelete(t, owner, ids)
    case Pruning(before) => PruneProvisional(t, before)
    case Purging(owner, start, end) => After(t, PurgeWindow(t, owner, start, end))
  }

  /** A staged memory that still carries the current governance revision was staged after the last disabling. */
  ghost predicate Fresh(t: Tables, m: Memory) {
    && m.governance <= Governance(t, m.owner)
    && (m.supersedes.Some? ==> m.supersedes.value in t.memories && t.memories[m.supersedes.value].owner == m.owner)
    && (m.status == Provisional && m.governance == Governance(t, m.owner) ==>
        && !UserDisabled(t, m.owner, m.fingerprint)
        && (m.supersedes.Some? ==> t.memories[m.supersedes.value].status != DisabledByUser))
  }

  ghost predicate Governed(t: Tables) {
    forall id | id in t.memories :: Fresh(t, t.memories[id])
  }

  // ----- Changes of status alone -----

  /** Rows keep everything but their status; nothing becomes disabled by its owner or provisional, and nothing stops being disabled. */
  ghost predicate Restatus(t: Tables, t': Tables) {
    && t'.settings == t.settings && t'.memories.Keys == t.memories.Keys
    && (forall id | id in t.memories :: t'.memories[id] == t.memories[id].(status := t'.memories[id].status))
    && (forall id | id in t.memories :: t'.memories[id].status == DisabledByUser <==> t.memories[id].status == DisabledByUser)
    && (forall id | id in t.memories :: t'.memories[id].status == Provisional ==> t.memories[id].status == Provisional)
  }

  lemma RestatusDisabled(t: Tables, t': Tables)
    requires Restatus(t, t')
    ensures forall o, f :: UserDisabled(t', o, f) == UserDisabled(t, o, f)
  {
    forall o, f ensures UserDisabled(t', o, f) == UserDisabled(t, o, f) {
      if UserDisabled(t, o, f) {
        var id :| id in t.memories && t.memories[id].owner == o && t.memories[id].fingerprint == f && t.memories[id].status == DisabledByUser;
        assert id in t'.memories && t'.memories[id].status == DisabledByUser;
      }
    }
  }

  lemma RestatusKeeps(t: Tables, t': Tables)
    requires Governed(t) && Restatus(t, t')
    ensures Governed(t')
  {
    RestatusDisabled(t, t');
    hide UserDisabled;
    forall id | id in t'.memories ensures Fresh(t', t'.memories[id]) {
      assert Fresh(t, t.memories[id]);
    }
  }

  lemma RestatusTrans(a: Tables, b: Tables, c: Tables)
    requires Restatus(a, b) && Restatus(b, c)
    ensures Restatus(a, c)
  {
  }

  /** What a row read by the promotion loop still guarantees when its turn comes. */
  ghost predicate Ready(t: Tables, id: Id, m: Memory) {
    && id in t.memories && t.memories[id].owner == m.owner && t.memories[id].status != DisabledByUser
    && (m.governance == Governance(t, m.owner) ==>
        && !UserDisabled(t, m.owner, m.fingerprint)
        && (m.supersedes.Some? ==> m.supersedes.value in t.memories && t.memories[m.supersedes.value].status != DisabledByUser))
  }

  ghost predicate AllReady(t: Tables, rows: seq<(Id, Memory)>) {
    forall i | 0 <= i < |rows| :: Ready(t, rows[i].0, rows[i].1)
  }

  lemma SetStatusRestatus(t: Tables, id: Id, status: MemoryStatus)
    requires id in t.memories ==> t.memories[id].status != DisabledByUser
    requires status != DisabledByUser && status != Provisional
    ensures Restatus(t, SetStatus(t, id, status))
  {
  }

  lemma TwoStatuses(t: Tables, target: Id, first: MemoryStatus, id: Id, last: MemoryStatus)
    requires (target in t.memories ==> t.memories[target].status != DisabledByUser) && (id in t.memories ==> t.memories[id].status != DisabledByUser)
    requires first != DisabledByUser && first != Provisional && last != DisabledByUser && last != Provisional
    ensures Restatus(t, SetStatus(SetStatus(t, target, first), id, last)) && Restatus(t, SetStatus(t, id, last))
  {
    SetStatusRestatus(t, target, first);
    SetStatusRestatus(t, id, last);
    SetStatusRestatus(SetStatus(t, target, first), id, last);
  }

  lemma PromoteRestatus(t: Tables, id: Id, m: Memory)
    requires Ready(t, id, m)
    ensures Restatus(t, Promote(t, id, m))
  {
    hide UserDisabled;
    hide Restatus;
    hide SetStatus;
    var target := if m.supersedes.Some? then m.supersedes.value else id;
    TwoStatuses(t, id, Superseded, id, Superseded);
    TwoStatuses(t, id, Superseded, id, Visible(m));
    if m.governance == Governance(t, m.owner) {
      TwoStatuses(t, target, Superseded, id, Superseded);
      TwoStatuses(t, target, Archived, id, Superseded);
      TwoStatuses(t, target, DisabledByAgent, id, Superseded);
      TwoStatuses(t, target, Superseded, id, Visible(m));
    }
  }

  lemma RestatusReady(t: Tables, t': Tables, rows: seq<(Id, Memory)>)
    requires AllReady(t, rows) && Restatus(t, t')
    ensures AllReady(t', rows)
  {
    RestatusDisabled(t, t');
    hide UserDisabled;
    forall i | 0 <= i < |rows| ensures Ready(t', rows[i].0, rows[i].1) {
      assert Ready(t, rows[i].0, rows[i].1);
    }
  }

  lemma {:induction false} PromoteAllRestatus(t: Tables, rows: seq<(Id, Memory)>)
    requires AllReady(t, rows)
    ensures Restatus(t, PromoteAll(t, rows))
    decreases |rows|
  {
    if rows != [] {
      var t1 := Promote(t, rows[0].0, rows[0].1);
      assert Ready(t, rows[0].0, rows[0].1);
      PromoteRestatus(t, rows[0].0, rows[0].1);
      assert AllReady(t, rows[1..]) by {
        assert forall i | 0 <= i < |rows[1..]| :: rows[1..][i] == rows[i + 1];
        hide Ready;
      }
      hide Ready;
      hide Promote;
      RestatusReady(t, t1, rows[1..]);
      hide AllReady;
      PromoteAllRestatus(t1, rows[1..]);
      hide Restatus;
      RestatusTrans(t, t1, PromoteAll(t1, rows[1..]));
    }
  }

  // ----- Each call -----

  lemma ListedAreReady(t: Tables, s: SessionKey, accepted: set<Id>, rows: seq<(Id, Memory)>)
    requires Governed(t) && ListsPromotable(t, s, accepted, rows)
    ensures AllReady(t, rows)
  {
    hide UserDisabled;
    forall i | 0 <= i < |rows| ensures Ready(t, rows[i].0, rows[i].1) {
      assert Promotable(t, s, accepted, rows[i].0) && Fresh(t, t.memories[rows[i].0]);
    }
  }

  lemma SameMemories(t: Tables, t': Tables)
    requires t'.memories == t.memories && t'.settings == t.settings
    ensures Restatus(t, t') && (Governed(t) ==> Governed(t'))
  {
    if Governed(t) {
      forall id | id in t'.memories ensures Fresh(t', t'.memories[id]) {
        assert Fresh(t, t.memories[id]);
      }
    }
  }

  /** The tables once the new acceptances are recorded, before promotion. */
  function Accepting(t: Tables, s: SessionKey, w: Writer, messages: seq<(Id, Message)>, requested: set<Id>): Tables {
    var t1 := SavedMessages(t, s, w, messages);
    t1.(accepted := t1.accepted + set g | g in NewlyAccepted(t1, s, requested) :: (s, g))
  }

  lemma SaveIsPromotion(t: Tables, s: SessionKey, w: Writer, active: bool, messages: seq<(Id, Message)>, requested: set<Id>, rows: seq<(Id, Memory)>)
    ensures var t1 := SavedMessages(t, s, w, messages); var t' := After(t, Save(t, s, w, active, messages, requested, rows));
      t' == t || (ListsPromotable(t1, s, NewlyAccepted(t1, s, requested), rows) && t' == PromoteAll(Accepting(t, s, w, messages, requested), rows))
  {
    hide PromoteAll;
    hide ListsPromotable;
    hide NewlyAccepted;
    hide SavedMessages;
    hide MaySave;
  }

  lemma AcceptingKeepsMemories(t: Tables, s: SessionKey, w: Writer, messages: seq<(Id, Message)>, requested: set<Id>)
    ensures SavedMessages(t, s, w, messages).memories == t.memories && SavedMessages(t, s, w, messages).settings == t.settings
    ensures Accepting(t, s, w, messages, requested).memories == t.memories && Accepting(t, s, w, messages, requested).settings == t.settings
  {
    hide NewlyAccepted;
    hide PutMessages;
  }

  /** Saving changes memories only by promotion, and promotion never touches what an owner disabled. */
  lemma SaveRestatus(t: Tables, s: SessionKey, w: Writer, active: bool, messages: seq<(Id, Message)>, requested: set<Id>, rows: seq<(Id, Memory)>)
    requires Governed(t)
    ensures Restatus(t, After(t, Save(t, s, w, active, messages, requested, rows)))
  {
    hide *;
    SameMemories(t, t);
    var t1, t2 := SavedMessages(t, s, w, messages), Accepting(t, s, w, messages, requested);
    var accepted := NewlyAccepted(t1, s, requested);
    SaveIsPromotion(t, s, w, active, messages, requested, rows);
    AcceptingKeepsMemories(t, s, w, messages, requested);
    SameMemories(t, t1);
    SameMemories(t, t2);
    SameMemories(t1, t2);
    if ListsPromotable(t1, s, accepted, rows) {
      ListedAreReady(t1, s, accepted, rows);
      RestatusReady(t1, t2, rows);
      PromoteAllRestatus(t2, rows);
      RestatusTrans(t, t2, PromoteAll(t2, rows));
    }
  }

  /** Rows may only appear as staged, and existing ones only gain sources. */
  ghost predicate Staged(t: Tables, t': Tables) {
    && t'.settings == t.settings
    && (forall id | id in t.memories :: id in t'.memories && t'.memories[id] == t.memories[id].(sources := t'.memories[id].sources))
    && (forall id | id in t'.memories && id !in t.memories :: t'.memories[id].status == Provisional)
  }

  lemma StagedDisabled(t: Tables, t': Tables, o: Owner, f: nat)
    requires Staged(t, t')
    ensures UserDisabled(t', o, f) == UserDisabled(t, o, f)
  {
    if UserDisabled(t, o, f) {
      var id :| id in t.memories && t.memories[id].owner == o && t.memories[id].fingerprint == f && t.memories[id].status == DisabledByUser;
      assert id in t'.memories && t'.memories[id].status == DisabledByUser;
    }
  }

  lemma StageOneStages(t: Tables, owner: Owner, session: nat, gen: Id, c: Control, now: int)
    requires FoundRight(t, owner, c)
    ensures Staged(t, StageOne(t, owner, session, gen, c, now))
  {
    hide Duplicate;
    hide UserDisabled;
    hide FoundRight;
  }

  lemma StageOneKeeps(t: Tables, owner: Owner, session: nat, gen: Id, c: Control, now: int)
    requires Governed(t) && FoundRight(t, owner, c)
    ensures var t' := StageOne(t, owner, session, gen, c, now); Governed(t') && Staged(t, t')
  {
    var t' := StageOne(t, owner, session, gen, c, now);
    StageOneStages(t, owner, session, gen, c, now);
    hide Duplicate;
    hide UserDisabled;
    forall id | id in t'.memories ensures Fresh(t', t'.memories[id]) {
      StagedDisabled(t, t', t'.memories[id].owner, t'.memories[id].fingerprint);
      assert id in t.memories ==> Fresh(t, t.memories[id]);
    }
  }

  lemma {:induction false} StageAllKeeps(t: Tables, owner: Owner, session: nat, gen: Id, controls: seq<Control>, now: int)
    requires Governed(t)
    ensures var r := StageAll(t, owner, session, gen, controls, now);
      r.Committed? ==> Governed(r.tables) && Staged(t, r.tables)
    decreases |controls|
  {
    hide FoundRight;
    hide Governed;
    if controls != [] && FoundRight(t, owner, controls[0]) {
      StageOneKeeps(t, owner, session, gen, controls[0], now);
      hide StageOne;
      StageAllKeeps(StageOne(t, owner, session, gen, controls[0], now), owner, session, gen, controls[1..], now);
    }
  }

  /** Raising the governance revision makes every staged control stale. */
  lemma BumpKeeps(t: Tables, t': Tables, owner: Owner, capture: bool)
    requires Governed(t) && t'.settings == t.settings && t'.memories.Keys == t.memories.Keys
    requires forall id | id in t.memories :: t'.memories[id] == t.memories[id] || (t.memories[id].owner == owner && t'.memories[id] == t.memories[id].(status := t'.memories[id].status))
    ensures Governed(t'.(settings := t'.settings[owner := Settings(capture, Governance(t', owner) + 1)]))
  {
    var t2 := t'.(settings := t'.settings[owner := Settings(capture, Governance(t', owner) + 1)]);
    forall id | id in t2.memories ensures Fresh(t2, t2.memories[id]) {
      var m := t.memories[id];
      assert Fresh(t, m);
      if m.owner != owner && UserDisabled(t2, m.owner, m.fingerprint) {
        var d :| d in t2.memories && t2.memories[d].owner == m.owner && t2.memories[d].fingerprint == m.fingerprint && t2.memories[d].status == DisabledByUser;
        assert t.memories[d] == t2.memories[d];
      }
    }
  }

  /** Deleting rows keeps the fence. */
  lemma DropKeeps(t: Tables, gone: set<Id>)
    requires Governed(t)
    ensures Governed(DropMemories(t, gone))
  {
    var t' := DropMemories(t, gone);
    forall o, f | UserDisabled(t', o, f) ensures UserDisabled(t, o, f) {
      var d :| d in t'.memories && t'.memories[d].owner == o && t'.memories[d].fingerprint == f && t'.memories[d].status == DisabledByUser;
      assert d in t.memories && t.memories[d].status == DisabledByUser;
    }
    hide UserDisabled;
    forall id | id in t'.memories ensures Fresh(t', t'.memories[id]) {
      assert Fresh(t, t.memories[id]);
    }
  }

  lemma PurgeRestatus(t: Tables, owner: Owner, start: int, end: int)
    requires start < end
    ensures Restatus(DropMemories(t, PurgeOf(t, owner, start, end).memories), After(t, PurgeWindow(t, owner, start, end)))
  {
    hide PurgeOf;
    hide PurgedSessions;
    hide Predecessor;
    hide HasChild;
  }

  /** Every call keeps the governance fence. */
  lemma ApplyKeeps(t: Tables, e: Event)
    requires Governed(t)
    ensures Governed(Apply(t, e))
  {
    hide Governed;
    match e
    case Saving(s, w, active, messages, requested, rows) =>
      SaveRestatus(t, s, w, active, messages, requested, rows);
      hide Save;
      RestatusKeeps(t, Apply(t, e));
    case Staging(owner, key, gen, governance, controls, revision, now) =>
      StageAllKeeps(t, owner, key, gen, controls, now);
      hide StageAll;
    case Disabling(owner, ids) =>
      if Owns(t, owner, ids) {
        DisablingKeeps(t, owner, ids);
      }
    case Setting(owner, capture) => BumpKeeps(t, t, owner, capture);
    case Deleting(owner, ids) => DeletingKeeps(t, owner, ids);
    case Pruning(before) => DropKeeps(t, set id | id in t.memories && t.memories[id].status == Provisional && t.memories[id].createdAt < before);
    case Purging(owner, start, end) =>
      if start < end {
        PurgeRestatus(t, owner, start, end);
        DropKeeps(t, PurgeOf(t, owner, start, end).memories);
        hide PurgeWindow;
        RestatusKeeps(DropMemories(t, PurgeOf(t, owner, start, end).memories), Apply(t, e));
      }
  }

  lemma DisablingKeeps(t: Tables, owner: Owner, ids: set<Id>)
    requires Governed(t) && Owns(t, owner, ids)
    ensures Governed(After(t, DisableByUser(t, owner, ids)))
  {
    if ids != {} {
      var t1 := t.(memories := map id | id in t.memories :: if id in ids then t.memories[id].(status := DisabledByUser) else t.memories[id]);
      hide Governed;
      BumpKeeps(t, t1, owner, SettingsOf(t1, owner).capture);
      assert Bump(t1, owner) == t1.(settings := t1.settings[owner := Settings(SettingsOf(t1, owner).capture, Governance(t1, owner) + 1)]);
    }
  }

  lemma DeletingKeeps(t: Tables, owner: Owner, ids: set<Id>)
    requires Governed(t)
    ensures Governed(ConfirmDelete(t, owner, ids))
  {
    var targets := set id | id in ids && id in t.memories && t.memories[id].owner == owner;
    var prints := set id | id in targets :: t.memories[id].fingerprint;
    var twins := set id | id in t.memories && t.memories[id].owner == owner && t.memories[id].status == Provisional && t.memories[id].fingerprint in prints;
    var t1 := DropMemories(t, targets + twins);
    hide Governed;
    DropKeeps(t, targets + twins);
    hide DropMemories;
    BumpKeeps(t1, t1, owner, SettingsOf(t1, owner).capture);
    assert Bump(t1, owner) == t1.(settings := t1.settings[owner := Settings(SettingsOf(t1, owner).capture, Governance(t1, owner) + 1)]);
  }

  ghost function Play(t: Tables, events: seq<Event>): (t': Tables)
    requires Governed(t)
    ensures Governed(t')
    decreases |events|
  {
    if events == [] then t
    else
      ApplyKeeps(t, events[0]);
      Play(Apply(t, events[0]), events[1..])
  }

  predicate Leads(t: Tables, e: Event, t': Tables) {
    Apply(t, e) == t'
  }

  /** A history played step by step. */
  lemma {:induction false} PlayPath(t: Tables, h: seq<Event>, path: seq<Tables>)
    requires Governed(t) && |path| == |h| + 1 && path[0] == t && forall k | 0 <= k < |h| :: Leads(path[k], h[k], path[k + 1])
    ensures Play(t, h) == path[|h|]
    decreases |h|
  {
    hide Apply;
    hide Governed;
    if h != [] {
      assert Leads(path[0], h[0], path[1]);
      ApplyKeeps(t, h[0]);
      forall k | 0 <= k < |h| - 1 ensures Leads(path[1..][k], h[1..][k], path[1..][k + 1]) {
        assert Leads(path[k + 1], h[k + 1], path[k + 2]);
      }
      PlayPath(path[1], h[1..], path[1..]);
    }
  }

  // ----- What the fence guarantees -----

  ghost predicate StaysDisabled(t: Tables, t': Tables) {
    forall id | id in t.memories && t.memories[id].status == DisabledByUser :: id in t'.memories ==> t'.memories[id].status == DisabledByUser
  }

  lemma ApplyStaysDisabled(t: Tables, e: Event)
    requires Governed(t)
    ensures StaysDisabled(t, Apply(t, e))
  {
    match e
    case Saving(s, w, active, messages, requested, rows) =>
      SaveRestatus(t, s, w, active, messages, requested, rows);
      hide Save;
    case Staging(owner, key, gen, governance, controls, revision, now) =>
      StageAllKeeps(t, owner, key, gen, controls, now);
      hide StageAll;
    case Purging(owner, start, end) =>
      if start < end {
        PurgeRestatus(t, owner, start, end);
        hide PurgeWindow;
        hide PurgeOf;
      }
    case _ =>
      hide Governed;
  }

  /** A memory its owner disabled never has another status again, the unguarded removal included: it stays
      disabled until it is deleted, and a deleted identifier is not watched any further. */
  lemma DisabledMemoriesStayDisabled(t: Tables, e: Event, id: Id)
    requires Governed(t) && id in t.memories && t.memories[id].status == DisabledByUser && id in Apply(t, e).memories
    ensures Apply(t, e).memories[id].status == DisabledByUser
  {
    ApplyStaysDisabled(t, e);
    hide Apply;
    hide Governed;
  }

  /** The memory is stored in every state along the way. */
  ghost predicate NeverDeleted(t: Tables, events: seq<Event>, id: Id)
    requires Governed(t)
    decreases |events|
  {
    id in t.memories && (events == [] || (ApplyKeeps(t, events[0]); NeverDeleted(Apply(t, events[0]), events[1..], id)))
  }

  lemma {:induction false} DisabledUntilDeleted(t: Tables, events: seq<Event>, id: Id)
    requires Governed(t) && NeverDeleted(t, events, id) && t.memories[id].status == DisabledByUser
    ensures id in Play(t, events).memories && Play(t, events).memories[id].status == DisabledByUser
    decreases |events|
  {
    if events != [] {
      ApplyKeeps(t, events[0]);
      DisabledMemoriesStayDisabled(t, events[0], id);
      hide Apply;
      hide Governed;
      DisabledUntilDeleted(Apply(t, events[0]), events[1..], id);
    }
  }

  // ----- Promotion -----

  /** At most the row itself becomes active, and only if that is what it is set to. */
  ghost predicate Turned(t: Tables, t': Tables, id: Id, activated: bool) {
    && t'.settings == t.settings && t'.memories.Keys == t.memories.Keys
    && (forall o | o in t.memories && t.memories[o].status != Active && t'.memories[o].status == Active :: o == id && activated)
  }

  lemma OneTurn(t: Tables, id: Id, status: MemoryStatus)
    ensures Turned(t, SetStatus(t, id, status), id, status == Active)
    ensures Turned(t, SetUnlessDisabled(t, id, status), id, status == Active)
  {
  }

  lemma TurnTrans(a: Tables, b: Tables, c: Tables, first: Id, id: Id, activated: bool)
    requires Turned(a, b, first, false) && Turned(b, c, id, activated)
    ensures Turned(a, c, id, activated)
  {
  }

  lemma TwoTurns(t: Tables, target: Id, first: MemoryStatus, id: Id, last: MemoryStatus)
    requires first != Active
    ensures Turned(t, SetStatus(t, id, last), id, last == Active)
    ensures Turned(t, SetStatus(SetStatus(t, target, first), id, last), id, last == Active)
    ensures Turned(t, SetStatus(SetUnlessDisabled(t, target, first), id, last), id, last == Active)
  {
    hide *;
    OneTurn(t, id, last);
    OneTurn(t, target, first);
    OneTurn(SetStatus(t, target, first), id, last);
    OneTurn(SetUnlessDisabled(t, target, first), id, last);
    TurnTrans(t, SetStatus(t, target, first), SetStatus(SetStatus(t, target, first), id, last), target, id, last == Active);
    TurnTrans(t, SetUnlessDisabled(t, target, first), SetStatus(SetUnlessDisabled(t, target, first), id, last), target, id, last == Active);
  }

  lemma PromoteTurns(t: Tables, id: Id, m: Memory)
    ensures Turned(t, Promote(t, id, m), id, m.governance == Governance(t, m.owner))
  {
    hide SetStatus;
    hide SetUnlessDisabled;
    var target := if m.supersedes.Some? then m.supersedes.value else id;
    TwoTurns(t, target, Superseded, id, Superseded);
    TwoTurns(t, target, Archived, id, Superseded);
    TwoTurns(t, target, DisabledByAgent, id, Superseded);
    TwoTurns(t, target, Superseded, id, Visible(m));
    hide Visible;
    WeakerTurn(t, Promote(t, id, m), id, m.governance == Governance(t, m.owner));
    hide Turned;
    hide Governance;
  }

  lemma WeakerTurn(t: Tables, t': Tables, id: Id, current: bool)
    ensures Turned(t, t', id, false) ==> Turned(t, t', id, current)
    ensures current && (Turned(t, t', id, true) || Turned(t, t', id, false)) ==> Turned(t, t', id, current)
  {
  }

  /** A turn of the loop changes at most its target, never to active, and its own row. */
  lemma PromoteSets(t: Tables, id: Id, m: Memory)
    ensures Promote(t, id, m).memories.Keys == t.memories.Keys && Promote(t, id, m).settings == t.settings
    ensures forall o | o in t.memories && t.memories[o].status != Active && Promote(t, id, m).memories[o].status == Active ::
      o == id && m.governance == Governance(t, m.owner)
  {
    PromoteTurns(t, id, m);
    hide Promote;
    hide Governance;
  }

  /** Only its own turn of the loop makes a row active, and only under the current governance revision. */
  lemma ActivatedByItsTurn(t: Tables, id: Id, m: Memory, other: Id)
    requires other in t.memories && other in Promote(t, id, m).memories
    requires t.memories[other].status != Active && Promote(t, id, m).memories[other].status == Active
    ensures other == id && m.governance == Governance(t, m.owner)
  {
    PromoteSets(t, id, m);
    hide Promote;
  }

  lemma {:induction false} ActivatedRowsAreCurrent(t: Tables, rows: seq<(Id, Memory)>, id: Id)
    requires id in t.memories && t.memories[id].status != Active
    ensures id in PromoteAll(t, rows).memories
    ensures PromoteAll(t, rows).memories[id].status == Active ==>
      exists i :: 0 <= i < |rows| && rows[i].0 == id && rows[i].1.governance == Governance(t, rows[i].1.owner)
    decreases |rows|
  {
    if rows != [] {
      var t1 := Promote(t, rows[0].0, rows[0].1);
      PromoteSets(t, rows[0].0, rows[0].1);
      if t1.memories[id].status == Active {
        ActivatedByItsTurn(t, rows[0].0, rows[0].1, id);
        hide Promote;
        PromoteAllKeepsKeys(t1, rows[1..]);
      } else {
        hide Promote;
        ActivatedRowsAreCurrent(t1, rows[1..], id);
        if PromoteAll(t1, rows[1..]).memories[id].status == Active {
          var i :| 0 <= i < |rows[1..]| && rows[1..][i].0 == id && rows[1..][i].1.governance == Governance(t1, rows[1..][i].1.owner);
          assert rows[i + 1] == rows[1..][i];
        }
      }
    }
  }

  lemma {:induction false} PromoteAllKeepsKeys(t: Tables, rows: seq<(Id, Memory)>)
    ensures PromoteAll(t, rows).memories.Keys == t.memories.Keys
    decreases |rows|
  {
    hide Promote;
    if rows != [] {
      PromoteSets(t, rows[0].0, rows[0].1);
      PromoteAllKeepsKeys(Promote(t, rows[0].0, rows[0].1), rows[1..]);
    }
  }

  /** No save makes a memory active while its owner has a memory of the same content disabled. */
  lemma PromotionRespectsDisabling(t: Tables, s: SessionKey, w: Writer, active: bool, messages: seq<(Id, Message)>, requested: set<Id>, rows: seq<(Id, Memory)>, id: Id)
    requires Governed(t) && id in t.memories && t.memories[id].status != Active
    ensures var t' := After(t, Save(t, s, w, active, messages, requested, rows));
      id in t'.memories && (t'.memories[id].status == Active ==> !UserDisabled(t', t.memories[id].owner, t.memories[id].fingerprint))
  {
    var t' := After(t, Save(t, s, w, active, messages, requested, rows));
    SaveRestatus(t, s, w, active, messages, requested, rows);
    RestatusDisabled(t, t');
    hide UserDisabled;
    assert Fresh(t, t.memories[id]);
    hide Governed;
    assert id in t'.memories;
    hide Restatus;
    SaveIsPromotion(t, s, w, active, messages, requested, rows);
    AcceptingKeepsMemories(t, s, w, messages, requested);
    hide Save;
    hide PromoteAll;
    hide NewlyAccepted;
    hide SavedMessages;
    hide Accepting;
    if t' != t {
      ActivatedRowsAreCurrent(Accepting(t, s, w, messages, requested), rows, id);
      forall i | 0 <= i < |rows| ensures rows[i].0 in t.memories && rows[i].1 == t.memories[rows[i].0] && t.memories[rows[i].0].status == Provisional {
        assert Promotable(SavedMessages(t, s, w, messages), s, NewlyAccepted(SavedMessages(t, s, w, messages), s, requested), rows[i].0);
      }
    }
  }
}
