/** What saving a session and governing memories accept, and the rows they leave: said of stored columns. */
module PersonalSaveEffects {
  import opened Wrappers
  import opened PersonalData
  import opened PersonalPurge
  import opened PersonalGovernance
  import opened PersonalEffects

  // ----- Messages -----

  /** What one more message leaves: a new one is stored; of a stored one only an assistant message of a generation is
      rewritten, and keeps all but its time. */
  function WithMessage(messages: map<Id, Message>, id: Id, m: Message): map<Id, Message> {
    if id in messages && m.role.Assistant? && m.gen.Some? then messages[id := messages[id].(timestamp := m.timestamp)]
    else if id in messages then messages
    else messages[id := m]
  }

  /** Messages are stored one after the other. */
  lemma {:induction false} MessagesExactly(messages: map<Id, Message>, rows: seq<(Id, Message)>, last: (Id, Message))
    ensures PutMessages(messages, []) == messages
    ensures PutMessages(messages, rows + [last]) == WithMessage(PutMessages(messages, rows), last.0, last.1)
    decreases |rows|
  {
    if rows == [] {
      assert ([last])[1..] == [];
      assert rows + [last] == [last];
    } else {
      assert (rows + [last])[1..] == rows[1..] + [last] && (rows + [last])[0] == rows[0];
      hide PutMessage;
      MessagesExactly(PutMessage(messages, rows[0].0, rows[0].1), rows[1..], last);
    }
  }

  // ----- Promotion -----

  /** The status a memory has once a provisional one was promoted: the staged row itself is shown, or archived, if it adds
      or replaces under the current governance revision, and otherwise used up; what it was meant for is replaced,
      archived or disabled accordingly, which a removal does even to a row its owner disabled. */
  function StatusAfter(t: Tables, id: Id, m: Memory, x: Id): MemoryStatus
    requires x in t.memories
  {
    var current := m.governance == GovernanceOf(t, m.owner);
    var before := t.memories[x].status;
    if x == id then if current && (m.action.Add? || m.action.Upsert?) then (if m.archived then Archived else Active) else Superseded
    else if !current || m.supersedes != Some(x) then before
    else if m.action.Remove? then Superseded
    else if before.DisabledByUser? then before
    else match m.action
      case Upsert => Superseded
      case Archive => Archived
      case DisableByAgent => DisabledByAgent
      case _ => before
  }

  ghost predicate Promotes(t: Tables, t': Tables, id: Id, m: Memory) {
    && t' == t.(memories := t'.memories) && t'.memories.Keys == t.memories.Keys
    && forall x | x in t.memories :: t'.memories[x] == t.memories[x].(status := StatusAfter(t, id, m, x))
  }

  /** The target first, and then the staged row itself. */
  ghost predicate SetsBoth(t: Tables, t': Tables, target: Option<Id>, first: MemoryStatus, id: Id, last: MemoryStatus) {
    && t' == t.(memories := t'.memories) && t'.memories.Keys == t.memories.Keys
    && forall x | x in t.memories :: t'.memories[x] == t.memories[x].(status := if x == id then last else if target == Some(x) then first else t.memories[x].status)
  }

  lemma BothSteps(t: Tables, t1: Tables, t': Tables, target: Option<Id>, first: MemoryStatus, id: Id, last: MemoryStatus)
    requires (if target.Some? then SetsStatus(t, t1, target.value, first) else t1 == t) && SetsStatus(t1, t', id, last)
    ensures SetsBoth(t, t', target, first, id, last)
  {
  }

  /** The row that is promoted with a staged one, what becomes of it, and what becomes of the staged row. */
  function Target(t: Tables, m: Memory): Option<Id> {
    if m.governance == GovernanceOf(t, m.owner) && !m.action.Add? then m.supersedes else None
  }

  function First(t: Tables, m: Memory): MemoryStatus {
    if m.supersedes.Some? && m.supersedes.value in t.memories && t.memories[m.supersedes.value].status.DisabledByUser? && !m.action.Remove? then DisabledByUser
    else if m.action.Archive? then Archived else if m.action.DisableByAgent? then DisabledByAgent else Superseded
  }

  function Final(t: Tables, m: Memory): MemoryStatus {
    if m.governance == GovernanceOf(t, m.owner) && (m.action.Add? || m.action.Upsert?) then (if m.archived then Archived else Active) else Superseded
  }

  lemma StatusInTwo(t: Tables, id: Id, m: Memory, x: Id)
    requires x in t.memories
    ensures StatusAfter(t, id, m, x) == if x == id then Final(t, m) else if Target(t, m) == Some(x) then First(t, m) else t.memories[x].status
  {
  }

  lemma PromoteExactly(t: Tables, id: Id, m: Memory)
    requires id in t.memories
    ensures Promotes(t, Promote(t, id, m), id, m)
  {
    PromotesInTwo(t, id, m, Target(t, m), First(t, m), Final(t, m));
    forall x | x in t.memories
      ensures StatusAfter(t, id, m, x) == if x == id then Final(t, m) else if Target(t, m) == Some(x) then First(t, m) else t.memories[x].status
    {
      StatusInTwo(t, id, m, x);
    }
    hide Promote;
    hide StatusAfter;
    hide Target;
    hide First;
    hide Final;
  }

  lemma PromotesInTwo(t: Tables, id: Id, m: Memory, target: Option<Id>, first: MemoryStatus, last: MemoryStatus)
    requires id in t.memories
    requires target == Target(t, m) && first == First(t, m) && last == Final(t, m)
    ensures SetsBoth(t, Promote(t, id, m), target, first, id, last)
  {
    StatusesExactly();
    var t1 := if target.None? then t else if m.action.Remove? then SetStatus(t, target.value, first) else SetUnlessDisabled(t, target.value, match m.action case Archive => Archived case DisableByAgent => DisabledByAgent case _ => Superseded);
    assert Promote(t, id, m) == SetStatus(t1, id, last) by {
      hide SetStatus;
      hide SetUnlessDisabled;
      hide SetsStatus;
    }
    hide SetStatus;
    hide SetUnlessDisabled;
    hide Promote;
    assert SetsStatus(t1, SetStatus(t1, id, last), id, last);
    assert target.Some? ==> SetsStatus(t, t1, target.value, first);
    hide SetsStatus;
    BothSteps(t, t1, SetStatus(t1, id, last), target, first, id, last);
  }

  ghost predicate SetsStatus(t: Tables, t': Tables, id: Id, status: MemoryStatus) {
    && t' == t.(memories := t'.memories) && t'.memories.Keys == t.memories.Keys
    && forall x | x in t.memories :: t'.memories[x] == if x == id then t.memories[x].(status := status) else t.memories[x]
  }

  lemma StatusesExactly()
    ensures forall t: Tables, id: Id, status :: SetsStatus(t, SetStatus(t, id, status), id, status)
    ensures forall t: Tables, id: Id, status :: SetsStatus(t, SetUnlessDisabled(t, id, status), id, if id in t.memories && t.memories[id].status.DisabledByUser? then DisabledByUser else status)
  {
  }

  /** Provisional memories are promoted one after the other. */
  lemma {:induction false} PromotionExactly(t: Tables, rows: seq<(Id, Memory)>, last: (Id, Memory))
    requires last.0 in t.memories
    ensures PromoteAll(t, []) == t
    ensures Promotes(PromoteAll(t, rows), PromoteAll(t, rows + [last]), last.0, last.1)
    decreases |rows|
  {
    if rows == [] {
      assert ([last])[1..] == [];
      assert rows + [last] == [last];
      PromoteExactly(t, last.0, last.1);
    } else {
      assert (rows + [last])[1..] == rows[1..] + [last] && (rows + [last])[0] == rows[0];
      PromoteAdds(t, rows[0].0, rows[0].1);
      hide Promote;
      hide Promotes;
      PromotionExactly(Promote(t, rows[0].0, rows[0].1), rows[1..], last);
    }
  }

  // ----- Saving -----

  /** The session still takes this writer: it has no revision yet, or the writer's is newer, or it is the writer's own. */
  predicate Takes(current: Option<Current>, w: Writer) {
    || current.None?
    || (w.Versioned? && current.value.revision < w.revision)
    || (w.Versioned? && current.value == Current(Generation(w.gen), w.revision))
  }

  /** Requested generations that were not accepted before and have an assistant message in the session. */
  ghost predicate Accepts(t: Tables, messages: map<Id, Message>, s: SessionKey, requested: set<Id>, g: Id) {
    g in requested && (s, g) !in t.accepted && exists m | m in messages :: messages[m].session == s && messages[m].role.Assistant? && messages[m].gen == Some(g)
  }

  /** The rows to promote: all provisional memories of the session that a newly accepted generation staged, each once. */
  ghost predicate ToPromote(t: Tables, messages: map<Id, Message>, s: SessionKey, requested: set<Id>, rows: seq<(Id, Memory)>) {
    && (forall i | 0 <= i < |rows| :: rows[i].0 in t.memories && rows[i].1 == t.memories[rows[i].0] && MayPromote(t, messages, s, requested, rows[i].1))
    && (forall i, j | 0 <= i < j < |rows| :: rows[i].0 != rows[j].0)
    && (forall id | id in t.memories && MayPromote(t, messages, s, requested, t.memories[id]) :: exists i | 0 <= i < |rows| :: rows[i].0 == id)
  }

  ghost predicate MayPromote(t: Tables, messages: map<Id, Message>, s: SessionKey, requested: set<Id>, m: Memory) {
    m.owner == s.owner && m.session == s.key && m.status.Provisional? && m.gen.Some? && Accepts(t, messages, s, requested, m.gen.value)
  }

  lemma AcceptsExactly(t: Tables, t1: Tables, s: SessionKey, requested: set<Id>, g: Id)
    requires t1.accepted == t.accepted
    ensures g in NewlyAccepted(t1, s, requested) <==> Accepts(t, t1.messages, s, requested, g)
  {
  }

  lemma ToPromoteExactly(t: Tables, t1: Tables, s: SessionKey, requested: set<Id>, rows: seq<(Id, Memory)>)
    requires t1.accepted == t.accepted && t1.memories == t.memories
    ensures ListsPromotable(t1, s, NewlyAccepted(t1, s, requested), rows) <==> ToPromote(t, t1.messages, s, requested, rows)
  {
    forall g ensures g in NewlyAccepted(t1, s, requested) <==> Accepts(t, t1.messages, s, requested, g) {
      AcceptsExactly(t, t1, s, requested, g);
    }
    hide NewlyAccepted;
    hide Accepts;
    forall id | id in t.memories ensures Promotable(t1, s, NewlyAccepted(t1, s, requested), id) <==> MayPromote(t, t1.messages, s, requested, t.memories[id]) {}
    hide Promotable;
    hide MayPromote;
  }

  /** Saving: an inactive writer or one the session does not take changes nothing, and a message of another session
      raises; otherwise the session is the writer's, unless it is unversioned or was there already, the messages are
      stored, the newly accepted generations are recorded, and what they staged is promoted. */
  lemma SavingExactly(t: Tables, s: SessionKey, w: Writer, active: bool, messages: seq<(Id, Message)>, requested: set<Id>, rows: seq<(Id, Memory)>)
    ensures var step := Save(t, s, w, active, messages, requested, rows);
      var current := if s in t.sessions then t.sessions[s] else None;
      if !active || !Takes(current, w) then step == Committed(t, false)
      else if exists i | 0 <= i < |messages| :: messages[i].1.session != s then step.Aborted?
      else
        var all := PutMessages(t.messages, messages);
        var fence := if w.Versioned? then Some(Current(Generation(w.gen), w.revision)) else None;
        if !ToPromote(t, all, s, requested, rows) then step.Aborted?
        else
          && step.Committed? && step.value && step.tables.settings == t.settings
          && step.tables.sessions == t.sessions[s := fence] && step.tables.messages == all
          && (forall x: SessionKey, g: Id :: (x, g) in step.tables.accepted <==> (x, g) in t.accepted || (x == s && Accepts(t, all, s, requested, g)))
          && step.tables.memories == PromoteAll(t.(sessions := step.tables.sessions, messages := all, accepted := step.tables.accepted), rows).memories
  {
    var current := if s in t.sessions then t.sessions[s] else None;
    assert MaySave(current, w) <==> Takes(current, w);
    assert Takes(current, w) ==> Saved(current, w) == if w.Versioned? then Some(Current(Generation(w.gen), w.revision)) else None;
    hide MaySave;
    hide Saved;
    hide Takes;
    var t1 := SavedMessages(t, s, w, messages);
    ToPromoteExactly(t, t1, s, requested, rows);
    forall g ensures g in NewlyAccepted(t1, s, requested) <==> Accepts(t, t1.messages, s, requested, g) {
      AcceptsExactly(t, t1, s, requested, g);
    }
    PromotionTouchesMemories(t1.(accepted := t1.accepted + set g | g in NewlyAccepted(t1, s, requested) :: (s, g)), rows);
    hide ToPromote;
    hide Accepts;
    hide ListsPromotable;
    hide NewlyAccepted;
    hide PromoteAll;
    hide PutMessages;
  }

  lemma {:induction false} PromotionTouchesMemories(t: Tables, rows: seq<(Id, Memory)>)
    ensures PromoteAll(t, rows) == t.(memories := PromoteAll(t, rows).memories)
    decreases |rows|
  {
    if rows != [] {
      PromoteTouchesMemories(t, rows[0].0, rows[0].1);
      hide Promote;
      PromotionTouchesMemories(Promote(t, rows[0].0, rows[0].1), rows[1..]);
    }
  }

  lemma PromoteTouchesMemories(t: Tables, id: Id, m: Memory)
    ensures Promote(t, id, m) == t.(memories := Promote(t, id, m).memories)
  {
    StatusesExactly();
    hide SetStatus;
    hide SetUnlessDisabled;
    hide Governance;
  }

  // ----- Governing -----

  /** The settings after a change that counts: the next governance revision. */
  function Governed1(t: Tables, owner: Owner, capture: bool): map<Owner, Settings> {
    t.settings[owner := Settings(capture, GovernanceOf(t, owner) + 1)]
  }

  /** An owner disables memories all together or not at all, and only the owner's own. */
  lemma DisablingExactly(t: Tables, owner: Owner, ids: set<Id>)
    ensures var s := DisableByUser(t, owner, ids);
      if ids == {} || exists id | id in ids :: id !in t.memories || t.memories[id].owner != owner then s == Committed(t, false)
      else
        && s.Committed? && s.value && s.tables == t.(memories := s.tables.memories, settings := Governed1(t, owner, Capturing(t, owner)))
        && s.tables.memories.Keys == t.memories.Keys
        && forall id | id in t.memories :: s.tables.memories[id] == if id in ids then t.memories[id].(status := DisabledByUser) else t.memories[id]
  {
  }

  lemma SettingExactly(t: Tables, owner: Owner, capture: bool)
    ensures UpdateSetting(t, owner, capture) == t.(settings := Governed1(t, owner, capture))
  {
  }

  /** The rows that are left keep everything, but no longer refer to one that is gone. */
  ghost predicate Drops(t: Tables, t': Tables, gone: set<Id>) {
    && (forall id :: id in t'.memories <==> id in t.memories && id !in gone)
    && forall id | id in t'.memories :: t'.memories[id] ==
         if t.memories[id].supersedes.Some? && t.memories[id].supersedes.value in gone then t.memories[id].(supersedes := None) else t.memories[id]
  }

  predicate Owned(t: Tables, owner: Owner, id: Id) {
    id in t.memories && t.memories[id].owner == owner
  }

  /** Staged, and of the same content as one of the owner's targets. */
  predicate StagedTwin(t: Tables, owner: Owner, ids: set<Id>, id: Id) {
    Owned(t, owner, id) && t.memories[id].status.Provisional? && exists x | x in ids :: Owned(t, owner, x) && t.memories[x].fingerprint == t.memories[id].fingerprint
  }

  /** A confirmed deletion removes the owner's targets and every staged memory of their contents, and counts as a change
      of governance. */
  lemma DeletingExactly(t: Tables, owner: Owner, ids: set<Id>) returns (gone: set<Id>)
    ensures forall id :: id in gone <==> (id in ids && Owned(t, owner, id)) || StagedTwin(t, owner, ids, id)
    ensures var t' := ConfirmDelete(t, owner, ids);
      t' == t.(memories := t'.memories, settings := Governed1(t, owner, Capturing(t, owner))) && Drops(t, t', gone)
  {
    var targets := set id | id in ids && id in t.memories && t.memories[id].owner == owner;
    var prints := set id | id in targets :: t.memories[id].fingerprint;
    var twins := set id | id in t.memories && t.memories[id].owner == owner && t.memories[id].status == Provisional && t.memories[id].fingerprint in prints;
    gone := targets + twins;
    forall id ensures id in twins <==> StagedTwin(t, owner, ids, id) {
      if id in twins {
        var x :| x in targets && t.memories[x].fingerprint == t.memories[id].fingerprint;
      }
    }
    DeletionDrops(t, owner, ids, gone);
    hide ConfirmDelete;
    hide StagedTwin;
  }

  lemma DeletionDrops(t: Tables, owner: Owner, ids: set<Id>, gone: set<Id>)
    requires gone ==
      var targets := set id | id in ids && id in t.memories && t.memories[id].owner == owner;
      var prints := set id | id in targets :: t.memories[id].fingerprint;
      targets + set id | id in t.memories && t.memories[id].owner == owner && t.memories[id].status == Provisional && t.memories[id].fingerprint in prints
    ensures var t' := ConfirmDelete(t, owner, ids);
      t' == t.(memories := t'.memories, settings := Governed1(t, owner, Capturing(t, owner))) && Drops(t, t', gone)
  {
    assert ConfirmDelete(t, owner, ids) == Bump(DropMemories(t, gone), owner);
    hide ConfirmDelete;
  }

  /** Pruning removes the staged memories from before an instant. */
  lemma PruningExactly(t: Tables, before: int) returns (gone: set<Id>)
    ensures forall id :: id in gone <==> id in t.memories && t.memories[id].status.Provisional? && t.memories[id].createdAt < before
    ensures var t' := PruneProvisional(t, before); t' == t.(memories := t'.memories) && Drops(t, t', gone)
  {
    gone := set id | id in t.memories && t.memories[id].status == Provisional && t.memories[id].createdAt < before;
  }
}
