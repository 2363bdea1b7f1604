/** How content its owner disabled can be shown again: exactly by archiving an older row of it, or by purging what
    replaced one. */
module PersonalLoopholes {
  import opened Wrappers
  import opened PersonalData
  import opened PersonalPurge
  import opened PersonalGovernance

  predicate Shown(status: MemoryStatus) {
    status == Active || status == Archived
  }

  /** A row is shown although its owner has a row of the same content disabled. */
  predicate ShowsDisabled(t: Tables, id: Id) {
    && id in t.memories && Shown(t.memories[id].status)
    && UserDisabled(t, t.memories[id].owner, t.memories[id].fingerprint)
  }

  // ----- One row through the promotion loop -----

  /** What a turn of the loop makes of the status of `id`, if anything. */
  function Effect(governance: nat, row: (Id, Memory), id: Id): Option<MemoryStatus> {
    var m := row.1;
    if row.0 == id then Some(if m.governance == governance && (m.action == Add || m.action == Upsert) then Visible(m) else Superseded)
    else if m.governance != governance || m.supersedes != Some(id) then None
    else match m.action
      case Add => None
      case Archive => Some(Archived)
      case DisableByAgent => Some(DisabledByAgent)
      case _ => Some(Superseded)
  }

  function Or(effect: Option<MemoryStatus>, before: MemoryStatus): MemoryStatus {
    if effect.Some? then effect.value else before
  }

  lemma SetReads(t: Tables, at: Id, status: MemoryStatus, id: Id)
    requires id in t.memories
    ensures id in SetStatus(t, at, status).memories
    ensures SetStatus(t, at, status).memories[id].status == if at == id then status else t.memories[id].status
    ensures id in SetUnlessDisabled(t, at, status).memories
    ensures t.memories[id].status != DisabledByUser ==>
            SetUnlessDisabled(t, at, status).memories[id].status == if at == id then status else t.memories[id].status
  {
  }

  lemma PromoteEffect(t: Tables, row: (Id, Memory), id: Id)
    requires id in t.memories && row.0 in t.memories && t.memories[id].status != DisabledByUser
    ensures var t' := Promote(t, row.0, row.1);
      id in t'.memories && t'.memories[id].status == Or(Effect(Governance(t, row.1.owner), row, id), t.memories[id].status)
  {
    hide SetStatus;
    hide SetUnlessDisabled;
    hide Governance;
    hide Visible;
    var m := row.1;
    var target := if m.supersedes.Some? then m.supersedes.value else row.0;
    var last := if m.governance == Governance(t, m.owner) && (m.action == Add || m.action == Upsert) then Visible(m) else Superseded;
    var first := if m.action == Archive then Archived else if m.action == DisableByAgent then DisabledByAgent else Superseded;
    SetReads(t, row.0, last, id);
    SetReads(t, target, first, id);
    SetReads(SetStatus(t, target, first), row.0, last, id);
    SetReads(SetUnlessDisabled(t, target, first), row.0, last, id);
  }

  function LastEffect(governance: nat, rows: seq<(Id, Memory)>, id: Id, before: MemoryStatus): MemoryStatus
    decreases |rows|
  {
    if rows == [] then before else LastEffect(governance, rows[1..], id, Or(Effect(governance, rows[0], id), before))
  }

  lemma {:induction false} PromoteAllEffect(t: Tables, rows: seq<(Id, Memory)>, id: Id, owner: Owner)
    requires AllReady(t, rows) && id in t.memories && t.memories[id].status != DisabledByUser
    requires forall i | 0 <= i < |rows| :: rows[i].1.owner == owner
    ensures var t' := PromoteAll(t, rows);
      id in t'.memories && t'.memories[id].status == LastEffect(Governance(t, owner), rows, id, t.memories[id].status)
    decreases |rows|
  {
    hide Promote;
    hide Effect;
    if rows != [] {
      var t1 := Promote(t, rows[0].0, rows[0].1);
      assert Ready(t, rows[0].0, rows[0].1);
      PromoteEffect(t, rows[0], id);
      PromoteRestatus(t, rows[0].0, rows[0].1);
      assert AllReady(t, rows[1..]) by {
        assert forall i | 0 <= i < |rows[1..]| :: rows[1..][i] == rows[i + 1];
        hide Ready;
      }
      hide Ready;
      RestatusReady(t, t1, rows[1..]);
      hide AllReady;
      assert forall i | 0 <= i < |rows[1..]| :: rows[1..][i] == rows[i + 1];
      assert t1.settings == t.settings && t1.memories[id].status != DisabledByUser;
      hide Restatus;
      PromoteAllEffect(t1, rows[1..], id, owner);
    }
  }

  /** The row archives `id` under the current governance revision. */
  predicate Archives(governance: nat, row: (Id, Memory), id: Id) {
    row.0 != id && row.1.governance == governance && row.1.action == Archive && row.1.supersedes == Some(id)
  }

  /** The row is `id` itself, or removes, disables or replaces it under the current governance revision. */
  predicate Hides(governance: nat, row: (Id, Memory), id: Id) {
    row.0 == id
    || (row.1.governance == governance && row.1.supersedes == Some(id) && (row.1.action == Remove || row.1.action == DisableByAgent || row.1.action == Upsert))
  }

  ghost predicate NoneHides(governance: nat, rows: seq<(Id, Memory)>, from: nat, id: Id) {
    forall k | from <= k < |rows| :: !Hides(governance, rows[k], id)
  }

  /** Row `i` archives `id`, and no later row hides it again. */
  ghost predicate ArchivedLast(governance: nat, rows: seq<(Id, Memory)>, id: Id, i: nat) {
    i < |rows| && Archives(governance, rows[i], id) && NoneHides(governance, rows, i + 1, id)
  }

  ghost predicate EndsArchived(governance: nat, rows: seq<(Id, Memory)>, id: Id) {
    exists i: nat :: ArchivedLast(governance, rows, id, i)
  }

  /** If the row itself is stale whenever it is listed. */
  lemma {:induction false} LastEffectShows(governance: nat, rows: seq<(Id, Memory)>, id: Id, before: MemoryStatus)
    requires forall i | 0 <= i < |rows| && rows[i].0 == id :: rows[i].1.governance != governance
    ensures Shown(LastEffect(governance, rows, id, before)) <==> EndsArchived(governance, rows, id) || (Shown(before) && NoneHides(governance, rows, 0, id))
    decreases |rows|
  {
    hide ArchivedLast;
    if rows == [] {
      NothingArchived(governance, id);
    } else {
      var next := Or(Effect(governance, rows[0], id), before);
      assert forall i | 0 <= i < |rows[1..]| :: rows[1..][i] == rows[i + 1];
      LastEffectShows(governance, rows[1..], id, next);
      FirstRow(governance, rows, id);
      assert Shown(next) <==> Archives(governance, rows[0], id) || (Shown(before) && !Hides(governance, rows[0], id));
      hide EndsArchived;
      hide Effect;
    }
  }

  lemma NothingArchived(governance: nat, id: Id)
    ensures !EndsArchived(governance, [], id)
  {
  }

  lemma FirstRow(governance: nat, rows: seq<(Id, Memory)>, id: Id)
    requires rows != []
    ensures NoneHides(governance, rows, 0, id) <==> !Hides(governance, rows[0], id) && NoneHides(governance, rows[1..], 0, id)
    ensures EndsArchived(governance, rows, id) <==>
      EndsArchived(governance, rows[1..], id) || (Archives(governance, rows[0], id) && NoneHides(governance, rows[1..], 0, id))
  {
    hide Archives;
    hide Hides;
    var rest := rows[1..];
    assert forall k | 0 <= k < |rest| :: rest[k] == rows[k + 1];
    forall i: nat ensures NoneHides(governance, rest, i, id) <==> NoneHides(governance, rows, i + 1, id) {
      if NoneHides(governance, rest, i, id) {
        assert forall k | i + 1 <= k < |rows| :: rows[k] == rest[k - 1];
      }
    }
    if EndsArchived(governance, rows, id) {
      var i: nat :| ArchivedLast(governance, rows, id, i);
      if i > 0 {
        assert ArchivedLast(governance, rest, id, i - 1);
      }
    }
    if EndsArchived(governance, rest, id) {
      var i: nat :| ArchivedLast(governance, rest, id, i);
      assert ArchivedLast(governance, rows, id, i + 1);
    }
    if Archives(governance, rows[0], id) && NoneHides(governance, rest, 0, id) {
      assert ArchivedLast(governance, rows, id, 0);
    }
  }

  // ----- Saving -----

  lemma ListedRows(t: Tables, s: SessionKey, accepted: set<Id>, rows: seq<(Id, Memory)>)
    requires ListsPromotable(t, s, accepted, rows)
    ensures forall i | 0 <= i < |rows| :: rows[i].0 in t.memories && rows[i].1 == t.memories[rows[i].0] && rows[i].1.owner == s.owner && rows[i].1.status == Provisional
  {
    assert forall i | 0 <= i < |rows| :: Promotable(t, s, accepted, rows[i].0);
  }

  /** A staged row of disabled content never carries the current governance revision. */
  lemma DisabledIsStale(t: Tables, id: Id)
    requires Governed(t) && id in t.memories && t.memories[id].status == Provisional
    requires UserDisabled(t, t.memories[id].owner, t.memories[id].fingerprint)
    ensures t.memories[id].governance != Governance(t, t.memories[id].owner)
  {
    assert Fresh(t, t.memories[id]);
  }

  lemma CommittedSave(t: Tables, s: SessionKey, w: Writer, active: bool, messages: seq<(Id, Message)>, requested: set<Id>, rows: seq<(Id, Memory)>)
    requires var r := Save(t, s, w, active, messages, requested, rows); r.Committed? && r.value
    ensures var t1 := SavedMessages(t, s, w, messages);
      && ListsPromotable(t1, s, NewlyAccepted(t1, s, requested), rows)
      && Save(t, s, w, active, messages, requested, rows).tables == PromoteAll(Accepting(t, s, w, messages, requested), rows)
  {
    hide PromoteAll;
    hide ListsPromotable;
    hide NewlyAccepted;
    hide SavedMessages;
    hide MaySave;
  }

  /** What a save makes of any row its owner did not disable itself. */
  lemma SaveEffect(t: Tables, s: SessionKey, w: Writer, active: bool, messages: seq<(Id, Message)>, requested: set<Id>, rows: seq<(Id, Memory)>, id: Id)
    requires Governed(t) && id in t.memories && t.memories[id].status != DisabledByUser
    requires var r := Save(t, s, w, active, messages, requested, rows); r.Committed? && r.value
    ensures var t' := Save(t, s, w, active, messages, requested, rows).tables;
      && id in t'.memories && t'.memories[id].status == LastEffect(Governance(t, s.owner), rows, id, t.memories[id].status)
      && (forall i | 0 <= i < |rows| :: rows[i].0 in t.memories && rows[i].1 == t.memories[rows[i].0] && rows[i].1.owner == s.owner && rows[i].1.status == Provisional)
  {
    var t1, t2 := SavedMessages(t, s, w, messages), Accepting(t, s, w, messages, requested);
    var accepted := NewlyAccepted(t1, s, requested);
    CommittedSave(t, s, w, active, messages, requested, rows);
    AcceptingKeepsMemories(t, s, w, messages, requested);
    assert Governance(t2, s.owner) == Governance(t, s.owner);
    hide *;
    ListedRows(t1, s, accepted, rows);
    SameMemories(t, t1);
    SameMemories(t1, t2);
    ListedAreReady(t1, s, accepted, rows);
    RestatusReady(t1, t2, rows);
    PromoteAllEffect(t2, rows, id, s.owner);
  }

  /** A save shows a row of disabled content exactly when some listed row of the current governance revision archives
      it, none after that hides it again, and it is not itself the row its owner disabled. */
  lemma SaveShowsDisabledExactly(t: Tables, s: SessionKey, w: Writer, active: bool, messages: seq<(Id, Message)>, requested: set<Id>, rows: seq<(Id, Memory)>, id: Id)
    requires Governed(t) && id in t.memories && !Shown(t.memories[id].status)
    requires UserDisabled(t, t.memories[id].owner, t.memories[id].fingerprint)
    requires var r := Save(t, s, w, active, messages, requested, rows); r.Committed? && r.value
    ensures ShowsDisabled(Save(t, s, w, active, messages, requested, rows).tables, id) <==>
            t.memories[id].status != DisabledByUser && EndsArchived(Governance(t, s.owner), rows, id)
  {
    var t' := Save(t, s, w, active, messages, requested, rows).tables;
    SaveRestatus(t, s, w, active, messages, requested, rows);
    RestatusDisabled(t, t');
    hide Save;
    hide UserDisabled;
    hide LastEffect;
    hide EndsArchived;
    hide NoneHides;
    if t.memories[id].status != DisabledByUser {
      SaveEffect(t, s, w, active, messages, requested, rows, id);
      forall i | 0 <= i < |rows| && rows[i].0 == id ensures rows[i].1.governance != Governance(t, s.owner) {
        DisabledIsStale(t, id);
      }
      hide Governed;
      LastEffectShows(Governance(t, s.owner), rows, id, t.memories[id].status);
    }
    hide Governed;
  }

  // ----- Purging -----

  /** The row survives, its owner did not disable it, it was replaced, and everything that replaced it is purged. */
  ghost predicate Revived(t: Tables, owner: Owner, start: int, end: int, id: Id)
    requires id in t.memories
  {
    var p := PurgeOf(t, owner, start, end); var m := t.memories[id];
    && id !in p.memories && m.owner == owner && m.status != DisabledByUser
    && (exists x | x in t.memories :: t.memories[x].supersedes == Some(id))
    && (forall x | x in t.memories && t.memories[x].supersedes == Some(id) :: x in p.memories)
  }

  predicate Twin(t: Tables, owner: Owner, fingerprint: nat, x: Id) {
    x in t.memories && t.memories[x].owner == owner && t.memories[x].fingerprint == fingerprint && t.memories[x].status == DisabledByUser
  }

  lemma DisabledIsTwin(t: Tables, owner: Owner, fingerprint: nat)
    ensures UserDisabled(t, owner, fingerprint) <==> exists x :: Twin(t, owner, fingerprint, x)
  {
    if UserDisabled(t, owner, fingerprint) {
      var x :| x in t.memories && t.memories[x].owner == owner && t.memories[x].fingerprint == fingerprint && t.memories[x].status == DisabledByUser;
      assert Twin(t, owner, fingerprint, x);
    }
  }

  lemma PurgeTwins(t: Tables, owner: Owner, start: int, end: int, o: Owner, fingerprint: nat, x: Id)
    requires start < end
    ensures Twin(After(t, PurgeWindow(t, owner, start, end)), o, fingerprint, x) <==> Twin(t, o, fingerprint, x) && x !in PurgeOf(t, owner, start, end).memories
  {
    AfterPurge(t, owner, start, end);
    if x in t.memories && x !in PurgeOf(t, owner, start, end).memories {
      PurgeRevivesExactly(t, owner, start, end, x);
    }
    hide PurgeWindow;
    hide PurgeOf;
  }

  /** A purge shows a row of disabled content exactly when everything that replaced it is purged and the disabled row
      of the same content is not. */
  lemma PurgeShowsDisabledExactly(t: Tables, owner: Owner, start: int, end: int, id: Id)
    requires start < end && id in t.memories && !Shown(t.memories[id].status)
    ensures ShowsDisabled(After(t, PurgeWindow(t, owner, start, end)), id) <==>
            && Revived(t, owner, start, end, id)
            && exists x :: Twin(t, t.memories[id].owner, t.memories[id].fingerprint, x) && x !in PurgeOf(t, owner, start, end).memories
  {
    var t' := After(t, PurgeWindow(t, owner, start, end));
    var m := t.memories[id];
    AfterPurge(t, owner, start, end);
    DisabledIsTwin(t', m.owner, m.fingerprint);
    forall x ensures Twin(t', m.owner, m.fingerprint, x) <==> Twin(t, m.owner, m.fingerprint, x) && x !in PurgeOf(t, owner, start, end).memories {
      PurgeTwins(t, owner, start, end, m.owner, m.fingerprint, x);
    }
    if id !in PurgeOf(t, owner, start, end).memories {
      PurgeRevivesExactly(t, owner, start, end, id);
    }
    hide PurgeWindow;
    hide PurgeOf;
    hide Twin;
    hide UserDisabled;
  }

  // ----- Every call -----

  /** Which call shows a hidden row of disabled content. */
  ghost predicate Loophole(t: Tables, e: Event, id: Id)
    requires id in t.memories
  {
    match e
    case Saving(s, w, active, messages, requested, rows) =>
      && Save(t, s, w, active, messages, requested, rows) == Committed(After(t, Save(t, s, w, active, messages, requested, rows)), true)
      && UserDisabled(t, t.memories[id].owner, t.memories[id].fingerprint)
      && t.memories[id].status != DisabledByUser && EndsArchived(Governance(t, s.owner), rows, id)
    case Purging(owner, start, end) =>
      && start < end && Revived(t, owner, start, end, id)
      && exists x :: Twin(t, t.memories[id].owner, t.memories[id].fingerprint, x) && x !in PurgeOf(t, owner, start, end).memories
    case _ => false
  }

  lemma QuietCallsShowNothing(t: Tables, e: Event, id: Id)
    requires Governed(t) && id in t.memories && !Shown(t.memories[id].status) && !e.Saving? && !e.Purging?
    ensures !ShowsDisabled(Apply(t, e), id)
  {
    if e.Staging? {
      StageAllKeeps(t, e.owner, e.key, e.gen, e.controls, e.now);
      hide StageAll;
      hide Governed;
    } else {
      hide Governed;
    }
  }

  lemma SavesShowExactly(t: Tables, e: Event, id: Id)
    requires Governed(t) && id in t.memories && !Shown(t.memories[id].status) && e.Saving?
    ensures ShowsDisabled(Apply(t, e), id) <==> Loophole(t, e, id)
  {
    var r := Save(t, e.session, e.writer, e.active, e.messages, e.requested, e.rows);
    var t' := After(t, r);
    SaveRestatus(t, e.session, e.writer, e.active, e.messages, e.requested, e.rows);
    RestatusDisabled(t, t');
    RefusedSave(t, e.session, e.writer, e.active, e.messages, e.requested, e.rows);
    hide Save;
    if UserDisabled(t, t.memories[id].owner, t.memories[id].fingerprint) && r.Committed? && r.value {
      SaveShowsDisabledExactly(t, e.session, e.writer, e.active, e.messages, e.requested, e.rows, id);
    }
    hide Governed;
    hide UserDisabled;
    hide EndsArchived;
  }

  lemma RefusedSave(t: Tables, s: SessionKey, w: Writer, active: bool, messages: seq<(Id, Message)>, requested: set<Id>, rows: seq<(Id, Memory)>)
    ensures var r := Save(t, s, w, active, messages, requested, rows); !(r.Committed? && r.value) ==> After(t, r) == t
  {
    hide PromoteAll;
    hide ListsPromotable;
    hide NewlyAccepted;
    hide SavedMessages;
    hide MaySave;
  }

  /** Of all calls exactly these show a hidden row whose content its owner disabled. */
  lemma DisabledContentShowsExactly(t: Tables, e: Event, id: Id)
    requires Governed(t) && id in t.memories && !Shown(t.memories[id].status)
    ensures ShowsDisabled(Apply(t, e), id) <==> Loophole(t, e, id)
  {
    hide Governed;
    hide ShowsDisabled;
    if e.Saving? {
      hide Loophole;
      SavesShowExactly(t, e, id);
    } else if e.Purging? {
      if e.start < e.end {
        PurgeShowsDisabledExactly(t, e.owner, e.start, e.end, id);
      } else {
        StillHidden(t, id);
      }
      hide Revived;
      hide PurgeWindow;
      hide PurgeOf;
      hide Twin;
    } else {
      hide Apply;
      QuietCallsShowNothing(t, e, id);
    }
  }

  lemma StillHidden(t: Tables, id: Id)
    requires id in t.memories && !Shown(t.memories[id].status)
    ensures !ShowsDisabled(t, id)
  {
  }
}
