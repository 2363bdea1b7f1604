/** Whole histories of the peer tables: any sequence of store calls, from empty tables. */
module PeerHistory {
  import opened Wrappers
  import opened PeerPolicy
  import opened PeerLedger
  import opened PeerInvariant

  datatype Event =
    | Registering(owner: Owner, handle: string)
    | Inviting(owner: Owner, handle: string, id: Id, now: int)
    | Accepting(owner: Owner, id: Id)
    | Granting(owner: Owner, id: Id, grantee: Owner, communicate: bool, autoReply: bool, share: bool, expected: nat, expires: Option<int>, now: int)
    | Revoking(owner: Owner, id: Id, block: bool)
    | DeletingOwner(owner: Owner, ids: seq<Id>)
    | Submitting(id: Id, request: Request, confirm: bool, now: int)
    | Deciding(owner: Owner, id: Id, approve: bool, now: int)
    | CancellingSuperseded(id: Id)
    | DenyingSuperseded(id: Id)
    | ClaimingNotice(rows: seq<Id>, now: int, seconds: int, token: Id)
    | BeginningNotice(id: Id, token: Id, now: int)
    | CompletingNotice(id: Id, token: Id, outcome: NoticeStatus, now: int)
    | Claiming(rows: seq<Id>, now: int, seconds: int, token: Id)
    | DenyingClaim(id: Id, token: Id)
    | Deferring(id: Id, token: Id, now: int)
    | Beating(id: Id, token: Id, revisions: Option<(nat, map<Owner, nat>)>, now: int, seconds: int)
    | Finishing(owner: Owner, id: Id, token: Id, frames: seq<string>, relationRevision: nat, grantRevisions: map<Owner, nat>, failed: bool, now: int)

  function Apply(l: Ledger, e: Event): Ledger {
    match e
    case Registering(owner, handle) => After(l, RegisterHandle(l, owner, handle))
    case Inviting(owner, handle, id, now) => After(l, Invite(l, owner, handle, id, now))
    case Accepting(owner, id) => After(l, Accept(l, owner, id))
    case Granting(owner, id, grantee, communicate, autoReply, share, expected, expires, now) =>
      After(l, UpdateGrant(l, owner, id, grantee, communicate, autoReply, share, expected, expires, now))
    case Revoking(owner, id, block) => After(l, Revoke(l, owner, id, block))
    case DeletingOwner(owner, ids) => After(l, DeleteOwner(l, owner, ids))
    case Submitting(id, request, confirm, now) => After(l, Submit(l, id, request, confirm, now))
    case Deciding(owner, id, approve, now) => After(l, DecideConfirmation(l, owner, id, approve, now))
    case CancellingSuperseded(id) => After(l, CancelSuperseded(l, id))
    case DenyingSuperseded(id) => After(l, DenySuperseded(l, id))
    case ClaimingNotice(rows, now, seconds, token) => After(l, ClaimNotice(l, rows, now, seconds, token))
    case BeginningNotice(id, token, now) => After(l, BeginNotice(l, id, token, now))
    case CompletingNotice(id, token, outcome, now) => After(l, CompleteNotice(l, id, token, outcome, now))
    case Claiming(rows, now, seconds, token) => After(l, ClaimCandidates(l, rows, now, seconds, token))
    case DenyingClaim(id, token) => After(l, DenyClaim(l, id, token))
    case Deferring(id, token, now) => After(l, Defer(l, id, token, now))
    case Beating(id, token, revisions, now, seconds) => After(l, Heartbeat(l, id, token, revisions, now, seconds))
    case Finishing(owner, id, token, frames, relationRevision, grantRevisions, failed, now) =>
      After(l, Finish(l, owner, id, token, frames, relationRevision, grantRevisions, failed, now))
  }

  // ----- Permissions -----

  /** No request is touched, and no relationship closes. */
  ghost predicate PermissionsOnly(l: Ledger, l': Ledger) {
    && l'.entries == l.entries && l'.threads == l.threads && Evolves(l, l')
    && (forall k | k in l'.grants :: k.relation in l'.relations)
    && (forall r :: RelationClosed(l', r) == RelationClosed(l, r))
  }

  lemma PermissionsKeep(l: Ledger, l': Ledger)
    requires Inv(l) && PermissionsOnly(l, l')
    ensures Inv(l') && Moves(l, l')
  {
    hide EntryOk;
    hide EntryStep;
    hide EarlierDone;
    forall id | id in l.entries ensures ShiftOk(l, l', id) {
      EntryStepRefl(l.entries[id]);
    }
    hide ShiftOk;
    assert Shifts(l, l');
    hide Shifts;
    hide Inv;
    ShiftKeeps(l, l');
  }

  lemma SetRelationPermissions(l: Ledger, id: Id, row: Relationship)
    requires Refs(l) && (id in l.relations ==> RelationStep(l.relations[id], row) && !Closed(l.relations[id].status)) && !Closed(row.status)
    ensures PermissionsOnly(l, l.(relations := l.relations[id := row]))
  {
  }

  lemma SetGrantPermissions(l: Ledger, key: GrantKey, row: Grant)
    requires Refs(l) && RelationActive(l, key.relation) && (key in l.grants ==> l.grants[key].revision < row.revision)
    ensures PermissionsOnly(l, l.(grants := l.grants[key := row]))
  {
  }

  lemma HandlesPermissions(l: Ledger, handles: map<string, Owner>)
    requires Refs(l)
    ensures PermissionsOnly(l, l.(handles := handles))
  {
  }

  lemma RegisterKeeps(l: Ledger, owner: Owner, handle: string)
    requires Inv(l)
    ensures var l' := After(l, RegisterHandle(l, owner, handle)); Inv(l') && Moves(l, l')
  {
    var l' := After(l, RegisterHandle(l, owner, handle));
    assert l' == l.(handles := l'.handles);
    hide RegisterHandle;
    HandlesPermissions(l, l'.handles);
    hide PermissionsOnly;
    hide Inv;
    hide Moves;
    PermissionsKeep(l, l');
  }

  lemma InviteKeeps(l: Ledger, owner: Owner, handle: string, id: Id, now: int)
    requires Inv(l)
    ensures var l' := After(l, Invite(l, owner, handle, id, now)); Inv(l') && Moves(l, l')
  {
    hide RecentInvites;
    hide RecentInvitations;
    MovesRefl(l);
    var l' := After(l, Invite(l, owner, handle, id, now));
    if id !in l.relations && id in l'.relations {
      SetRelationPermissions(l, id, l'.relations[id]);
      hide PermissionsOnly;
      hide Inv;
      hide Moves;
      PermissionsKeep(l, l.(relations := l.relations[id := l'.relations[id]]));
    }
    hide Inv;
    hide Moves;
  }

  lemma AcceptKeeps(l: Ledger, owner: Owner, id: Id)
    requires Inv(l)
    ensures var l' := After(l, Accept(l, owner, id)); Inv(l') && Moves(l, l')
  {
    MovesRefl(l);
    hide Moves;
    if id in l.relations && l.relations[id].status == Invited {
      SetRelationPermissions(l, id, l.relations[id].(status := Active, revision := l.relations[id].revision + 1));
      hide PermissionsOnly;
      hide Inv;
      PermissionsKeep(l, SetRelation(l, id, Active));
    }
  }

  lemma GrantKeeps(l: Ledger, owner: Owner, id: Id, grantee: Owner, communicate: bool, autoReply: bool, share: bool, expected: nat, expires: Option<int>, now: int)
    requires Inv(l)
    ensures var l' := After(l, UpdateGrant(l, owner, id, grantee, communicate, autoReply, share, expected, expires, now)); Inv(l') && Moves(l, l')
  {
    MovesRefl(l);
    hide Moves;
    if RelationActive(l, id) {
      var key := GrantKey(id, owner);
      var row := Grant(communicate, autoReply, share, (if key in l.grants then l.grants[key].revision else 0) + 1, expires, now);
      SetGrantPermissions(l, key, row);
      hide PermissionsOnly;
      hide Inv;
      PermissionsKeep(l, l.(grants := l.grants[key := row]));
    }
  }

  // ----- Closing a relationship -----

  lemma ClosedEntrySteps(e: Entry, all: bool)
    requires EntryOk(false, e) || EntryOk(true, e)
    ensures EntryStep(e, ClosedEntry(e, all)) && EntryOk(true, ClosedEntry(e, all)) && ClosedEntry(e, all).attempts == e.attempts
  {
  }

  /** A relationship is closed, or already was, with all its requests; its grants stay or go. */
  ghost predicate Closes(l: Ledger, l': Ledger, id: Id, all: bool) {
    && l'.threads == l.threads && l'.entries.Keys == l.entries.Keys
    && (forall r | r in l.entries :: l'.entries[r] == if l.entries[r].request.relation == id then ClosedEntry(l.entries[r], all) else l.entries[r])
    && RelationClosed(l', id) && l'.relations.Keys == l.relations.Keys
    && (forall r | r in l.relations :: if r == id then RelationStep(l.relations[r], l'.relations[r]) else l'.relations[r] == l.relations[r])
    && (forall k | k in l'.grants :: k in l.grants && l'.grants[k] == l.grants[k])
    && (forall k | k in l.grants && k !in l'.grants :: k.relation == id)
  }

  lemma ClosesKeep(l: Ledger, l': Ledger, id: Id, all: bool)
    requires Inv(l) && Closes(l, l', id, all)
    ensures Inv(l') && Moves(l, l')
  {
    assert Evolves(l, l');
    assert Refs(l) && Entries(l);
    forall r | r in l.entries ensures ShiftOk(l, l', r) {
      ClosedEntryShift(l, l', id, all, r);
    }
    hide ShiftOk;
    hide Inv;
    assert Shifts(l, l');
    hide Shifts;
    hide Evolves;
    ShiftKeeps(l, l');
    hide EntriesStep;
  }

  lemma ClosedEntryShift(l: Ledger, l': Ledger, id: Id, all: bool, r: Id)
    requires Entries(l) && Closes(l, l', id, all) && r in l.entries
    ensures ShiftOk(l, l', r)
  {
    var e := l.entries[r];
    assert EntryOk(RelationClosed(l, e.request.relation), e);
    ClosedEntrySteps(e, all);
    EntryStepRefl(e);
    hide EntryOk;
    hide EntryStep;
    hide EarlierDone;
    assert ClosedEntry(e, all).request == e.request;
    hide ClosedEntry;
  }

  lemma RevokeCloses(l: Ledger, id: Id, status: RelationStatus)
    requires Revocable(l, id) && Closed(status)
    ensures Closes(l, CloseEntries(SetRelation(l, id, status), id, false), id, false)
  {
    hide ClosedEntry;
  }

  lemma DeletionCloses(l: Ledger, id: Id)
    requires id in l.relations
    ensures Closes(l, CloseForDeletion(l, id), id, true)
  {
    hide ClosedEntry;
  }

  lemma {:induction false} CloseAllKeeps(l: Ledger, ids: seq<Id>)
    requires Inv(l) && forall i | 0 <= i < |ids| :: ids[i] in l.relations
    ensures Inv(CloseAll(l, ids)) && Moves(l, CloseAll(l, ids))
    decreases |ids|
  {
    MovesRefl(l);
    hide Inv;
    if ids != [] {
      var l1 := CloseForDeletion(l, ids[0]);
      DeletionCloses(l, ids[0]);
      assert l1.relations.Keys == l.relations.Keys;
      hide CloseForDeletion;
      hide Closes;
      hide Moves;
      ClosesKeep(l, l1, ids[0], true);
      CloseAllKeeps(l1, ids[1..]);
      MovesTrans(l, l1, CloseAll(l, ids));
    }
  }

  lemma ClosingEventsKeep(l: Ledger, e: Event)
    requires Inv(l) && (e.Revoking? || e.DeletingOwner?)
    ensures Inv(Apply(l, e)) && Moves(l, Apply(l, e))
  {
    MovesRefl(l);
    hide Inv;
    hide Moves;
    match e
    case Revoking(owner, id, block) =>
      if Revocable(l, id) {
        var status := if block then Blocked else Revoked;
        RevokeCloses(l, id, status);
        hide Closes;
        hide CloseEntries;
        ClosesKeep(l, CloseEntries(SetRelation(l, id, status), id, false), id, false);
      }
    case DeletingOwner(owner, ids) =>
      if ListsRelations(l, owner, ids) {
        CloseAllKeeps(l, ids);
        hide CloseAll;
        ForgetOwner(l, CloseAll(l, ids), Apply(l, e));
      }
  }

  lemma ForgetOwner(l: Ledger, l1: Ledger, l2: Ledger)
    requires Inv(l1) && Moves(l, l1) && l2 == l1.(deleted := l2.deleted, handles := l2.handles)
    ensures Inv(l2) && Moves(l, l2)
  {
    assert forall k :: GrantStep(l1, l2, k) && RelationClosed(l2, k.relation) == RelationClosed(l1, k.relation);
    assert PermissionsOnly(l1, l2) by {
      MovesRefl(l1);
    }
    hide PermissionsOnly;
    hide Inv;
    PermissionsKeep(l1, l2);
    hide Moves;
    MovesTrans(l, l1, l2);
  }

  // ----- Submitting -----

  lemma NewEntryOk(l: Ledger, r: Request, sequence: nat, confirm: bool, now: int)
    requires r.relation in l.relations
    ensures EntryOk(RelationClosed(l, r.relation), NewEntry(l, r, sequence, confirm, now))
  {
    hide GrantRevisions;
  }

  /** A new request at the end of its thread, which is new or still has room. */
  ghost predicate Joins(l: Ledger, l': Ledger, id: Id) {
    && id !in l.entries && id in l'.entries && l'.entries == l.entries[id := l'.entries[id]]
    && l'.relations == l.relations && l'.grants == l.grants
    && var e := l'.entries[id]; var t := e.request.thread;
    && e.attempts == 0 && RequestRefs(l', e.request) && EntryOk(RelationClosed(l, e.request.relation), e)
    && t in l'.threads && l'.threads == l.threads[t := l'.threads[t]]
    && e.request.sequence == l'.threads[t].count <= MAX_THREAD_REQUESTS
    && (if t in l.threads then l'.threads[t] == l.threads[t].(count := l.threads[t].count + 1) else l'.threads[t].count == 1)
    && |RequestsSince(l, e.request.relation, e.request.createdAt - HOUR)| < MAX_HOURLY_REQUESTS
  }

  lemma SubmitJoins(l: Ledger, id: Id, r: Request, confirm: bool, now: int)
    requires Refs(l)
    ensures var s := Submit(l, id, r, confirm, now);
      && (s.Committed? && s.value ==> s.ledger == l)
      && (s.Committed? && !s.value ==> Joins(l, s.ledger, id))
  {
    hide EntryOk;
    hide RequestsSince;
    var s := Submit(l, id, r, confirm, now);
    if s.Committed? && !s.value {
      NewEntryOk(l, r, s.ledger.entries[id].request.sequence, confirm, now);
    }
  }

  lemma JoinRows(l: Ledger, l': Ledger, id: Id)
    requires Refs(l) && Entries(l) && Joins(l, l', id)
    ensures Refs(l') && Entries(l')
  {
    hide EntryOk;
    forall p | p in l'.entries ensures RequestRefs(l', l'.entries[p].request) && EntryOk(RelationClosed(l', l'.entries[p].request.relation), l'.entries[p]) {
      if p != id {
        assert RequestRefs(l, l.entries[p].request);
      }
    }
  }

  lemma JoinQueue(l: Ledger, l': Ledger, id: Id)
    requires Refs(l) && Threads(l) && Queue(l) && Joins(l, l', id)
    ensures Queue(l')
  {
    forall p | p in l'.entries && l'.entries[p].attempts > 0 ensures EarlierDone(l', p) {
      assert EarlierDone(l, p);
    }
  }

  lemma JoinNumbered(l: Ledger, l': Ledger, id: Id)
    requires Joins(l, l', id)
    ensures forall p, t, k: nat :: Numbered(l', p, t, k) <==> Numbered(l, p, t, k) || (p == id && t == l'.entries[id].request.thread && k == l'.entries[id].request.sequence)
  {
  }

  lemma JoinThreads(l: Ledger, l': Ledger, id: Id)
    requires Refs(l) && Threads(l) && Joins(l, l', id)
    ensures Threads(l')
  {
    JoinNumbered(l, l', id);
    hide EntryOk;
    hide RequestsSince;
    assert forall p, t, k: nat | Numbered(l, p, t, k) :: t in l.threads && k <= l.threads[t].count;
    forall a, b, t, k: nat | Numbered(l', a, t, k) && Numbered(l', b, t, k) ensures a == b {}
    hide Numbered;
    forall t, k: nat | t in l'.threads && 1 <= k <= l'.threads[t].count ensures Filled(l', t, k) {
      if t in l.threads && k <= l.threads[t].count {
        assert Filled(l, t, k);
        var p :| Numbered(l, p, t, k);
        assert Numbered(l', p, t, k);
      } else {
        assert Numbered(l', id, t, k);
      }
    }
  }

  lemma Subsets(a: set<Id>, b: set<Id>)
    requires a <= b
    ensures |a| <= |b|
  {
    assert b == a + (b - a);
  }

  lemma WindowJoins(l: Ledger, l': Ledger, id: Id, relation: Id, start: int)
    requires id !in l.entries && id in l'.entries && l'.entries == l.entries[id := l'.entries[id]]
    ensures var r := l'.entries[id].request;
      Window(l', relation, start) ==
        if relation == r.relation && start <= r.createdAt <= start + HOUR then Window(l, relation, start) + {id} else Window(l, relation, start)
  {
  }

  /** Whatever an hour around the new request already held was counted by the limit, clocks going back included. */
  lemma WindowWasCounted(l: Ledger, relation: Id, start: int, now: int)
    requires start <= now <= start + HOUR
    ensures |Window(l, relation, start)| <= |RequestsSince(l, relation, now - HOUR)|
  {
    Subsets(Window(l, relation, start), RequestsSince(l, relation, now - HOUR));
  }

  lemma JoinRate(l: Ledger, l': Ledger, id: Id)
    requires Rate(l) && Joins(l, l', id)
    ensures Rate(l')
  {
    hide EntryOk;
    hide RequestRefs;
    var r := l'.entries[id].request;
    hide Window;
    hide RequestsSince;
    forall relation, start: int ensures |Window(l', relation, start)| <= MAX_HOURLY_REQUESTS {
      WindowJoins(l, l', id, relation, start);
      if relation == r.relation && start <= r.createdAt <= start + HOUR {
        WindowWasCounted(l, relation, start, r.createdAt);
      }
    }
  }

  lemma JoinMoves(l: Ledger, l': Ledger, id: Id)
    requires Joins(l, l', id)
    ensures Moves(l, l')
  {
    forall p | p in l.entries ensures EntryStep(l.entries[p], l'.entries[p]) {
      EntryStepRefl(l.entries[p]);
    }
    hide EntryStep;
    hide EntryOk;
  }

  lemma SubmitKeeps(l: Ledger, id: Id, r: Request, confirm: bool, now: int)
    requires Inv(l)
    ensures var l' := After(l, Submit(l, id, r, confirm, now)); Inv(l') && Moves(l, l')
  {
    var s := Submit(l, id, r, confirm, now);
    SubmitJoins(l, id, r, confirm, now);
    MovesRefl(l);
    hide Submit;
    hide Refs;
    hide Entries;
    hide Threads;
    hide Queue;
    hide Rate;
    hide Joins;
    hide Moves;
    if s.Committed? && !s.value {
      JoinRows(l, s.ledger, id);
      JoinQueue(l, s.ledger, id);
      JoinThreads(l, s.ledger, id);
      JoinRate(l, s.ledger, id);
      JoinMoves(l, s.ledger, id);
    }
  }

  // ----- One request -----

  lemma EntryIsOk(l: Ledger, id: Id)
    requires Inv(l) && id in l.entries
    ensures EntryOk(RelationClosed(l, l.entries[id].request.relation), l.entries[id])
  {
    hide EntryOk;
    hide RequestRefs;
  }

  lemma DecideKeeps(l: Ledger, owner: Owner, id: Id, approve: bool, now: int)
    requires Inv(l)
    ensures var l' := After(l, DecideConfirmation(l, owner, id, approve, now)); Inv(l') && Moves(l, l')
  {
    MovesRefl(l);
    hide Moves;
    if id in l.entries && ConfirmationOpen(l.entries[id]) {
      var e := l.entries[id];
      assert EntryOk(RelationClosed(l, e.request.relation), e);
      hide Inv;
      DecidedSteps(l, e, Expired, Denied, now);
      DecidedSteps(l, e, Cancelled, Denied, now);
      SetEntryKeeps(l, id, Decided(e, Expired, Denied));
      SetEntryKeeps(l, id, Decided(e, Cancelled, Denied));
      if StillValid(l, e, now) {
        DecidedSteps(l, e, Confirmed, Authorized, now);
        SetEntryKeeps(l, id, Decided(e, Confirmed, Authorized));
      }
      hide EntryOk;
      hide EntryStep;
      hide Decided;
      hide StillValid;
    }
  }

  /** A confirmation that is still open can only belong to a request that waits for it, or that was denied with
      its relationship; so the unguarded update never revives a finished request. */
  lemma DecidedSteps(l: Ledger, e: Entry, confirmation: ConfirmationStatus, status: RequestStatus, now: int)
    requires ConfirmationOpen(e) && EntryOk(RelationClosed(l, e.request.relation), e) && confirmation != Open
    requires if confirmation == Confirmed then status == Authorized && RelationActive(l, e.request.relation) else status == Denied
    ensures EntryStep(e, Decided(e, confirmation, status)) && EntryOk(RelationClosed(l, e.request.relation), Decided(e, confirmation, status))
    ensures Decided(e, confirmation, status).attempts == e.attempts
  {
  }

  lemma SupersededSteps(closed: bool, e: Entry)
    requires EntryOk(closed, e)
    ensures var c := CancelledEntry(e); var d := if c.status == ConfirmationPending then c.(status := Denied) else c;
            var f := if Terminal(c.status) then c else c.(status := Denied, token := None, until := None);
      && (ConfirmationOpen(e) ==> EntryStep(e, d) && EntryOk(closed, d) && d.attempts == e.attempts)
      && EntryStep(e, f) && EntryOk(closed, f) && f.attempts == e.attempts
  {
  }

  lemma SupersedingKeeps(l: Ledger, id: Id)
    requires Inv(l)
    ensures var l' := After(l, CancelSuperseded(l, id)); Inv(l') && Moves(l, l')
    ensures var l' := After(l, DenySuperseded(l, id)); Inv(l') && Moves(l, l')
  {
    MovesRefl(l);
    hide Moves;
    if id in l.entries {
      var e := l.entries[id];
      var closed := RelationClosed(l, e.request.relation);
      assert EntryOk(closed, e);
      hide Inv;
      SupersededSteps(closed, e);
      hide EntryOk;
      hide EntryStep;
      var c := CancelledEntry(e);
      assert c.request == e.request && c.attempts == e.attempts;
      hide CancelledEntry;
      if ConfirmationOpen(e) {
        SetEntryKeeps(l, id, if c.status == ConfirmationPending then c.(status := Denied) else c);
      }
      SetEntryKeeps(l, id, if Terminal(c.status) then c else c.(status := Denied, token := None, until := None));
    }
  }

  lemma DenySteps(closed: bool, e: Entry)
    requires EntryOk(closed, e) && e.status == Leased
    ensures var e' := e.(status := Denied, token := None, until := None); EntryStep(e, e') && EntryOk(closed, e')
  {
  }

  lemma DenyClaimKeeps(l: Ledger, id: Id, token: Id)
    requires Inv(l)
    ensures var l' := After(l, DenyClaim(l, id, token)); Inv(l') && Moves(l, l')
  {
    MovesRefl(l);
    hide Moves;
    hide Inv;
    if HoldsRequest(l, id, token) {
      var e := l.entries[id];
      EntryIsOk(l, id);
      DenySteps(RelationClosed(l, e.request.relation), e);
      hide EntryOk;
      hide EntryStep;
      hide EarlierDone;
      SetEntryKeeps(l, id, e.(status := Denied, token := None, until := None));
    }
  }

  lemma DeferSteps(closed: bool, e: Entry, availableAt: int)
    requires EntryOk(closed, e) && e.status == Leased
    ensures EntryStep(e, GivenUp(e)) && EntryOk(closed, GivenUp(e)) && GivenUp(e).attempts == e.attempts && e.attempts > 0
    ensures GivenUp(e).request == e.request
    ensures var e' := e.(status := Unleased(e), token := None, until := None, availableAt := availableAt);
      e.attempts < MAX_LEASES ==> EntryStep(e, e') && EntryOk(closed, e')
  {
  }

  lemma DeferKeeps(l: Ledger, id: Id, token: Id, now: int)
    requires Inv(l)
    ensures var l' := After(l, Defer(l, id, token, now)); Inv(l') && Moves(l, l')
  {
    MovesRefl(l);
    hide Moves;
    hide Inv;
    hide DeferSeconds;
    hide GivenUp;
    hide Unleased;
    hide EntryOk;
    hide EntryStep;
    hide EarlierDone;
    if HoldsRequest(l, id, token) && LeaseLive(l.entries[id], now) {
      var e := l.entries[id];
      EntryIsOk(l, id);
      DeferSteps(RelationClosed(l, e.request.relation), e, now + DeferSeconds(e.attempts) * MICROS);
      if e.attempts >= MAX_LEASES {
        SetEntryKeeps(l, id, GivenUp(e));
      } else {
        SetEntryKeeps(l, id, e.(status := Unleased(e), token := None, until := None, availableAt := now + DeferSeconds(e.attempts) * MICROS));
      }
    }
  }

  lemma HeartbeatKeeps(l: Ledger, id: Id, token: Id, revisions: Option<(nat, map<Owner, nat>)>, now: int, seconds: int)
    requires Inv(l)
    ensures var l' := After(l, Heartbeat(l, id, token, revisions, now, seconds)); Inv(l') && Moves(l, l')
  {
    MovesRefl(l);
    hide Moves;
    hide SamePermissions;
    if LeaseStands(l, id, token, now) {
      var e := l.entries[id];
      assert EntryOk(RelationClosed(l, e.request.relation), e);
      hide Inv;
      var e' := e.(until := Some(now + Earlier(seconds, MAX_LEASE_SECONDS) * MICROS));
      assert EntryStep(e, e') && EntryOk(RelationClosed(l, e.request.relation), e');
      SetEntryKeeps(l, id, e');
    }
  }

  lemma FinishKeeps(l: Ledger, owner: Owner, id: Id, token: Id, frames: seq<string>, relationRevision: nat, grantRevisions: map<Owner, nat>, failed: bool, now: int)
    requires Inv(l)
    ensures var l' := After(l, Finish(l, owner, id, token, frames, relationRevision, grantRevisions, failed, now)); Inv(l') && Moves(l, l')
  {
    MovesRefl(l);
    hide Moves;
    hide SamePermissions;
    hide ValidResponse;
    if LeaseStands(l, id, token, now) {
      var e := l.entries[id];
      assert EntryOk(RelationClosed(l, e.request.relation), e);
      hide Inv;
      var e' := FinishedEntry(e, frames, failed);
      assert EntryStep(e, e') && EntryOk(RelationClosed(l, e.request.relation), e');
      SetEntryKeeps(l, id, e');
    }
  }

  // ----- Notices -----

  lemma NoticeKeeps(l: Ledger, id: Id, n: Notice)
    requires Inv(l) && id in l.entries && l.entries[id].notice.Some? && NoticeStep(l.entries[id].notice, Some(n))
    requires n.status == NoticePending || n.status == NoticeLeased ==> ConfirmationOpen(l.entries[id])
    ensures Inv(SetEntry(l, id, l.entries[id].(notice := Some(n)))) && Moves(l, SetEntry(l, id, l.entries[id].(notice := Some(n))))
  {
    var e := l.entries[id];
    assert EntryOk(RelationClosed(l, e.request.relation), e);
    assert e.attempts > 0 ==> l.entries[id].attempts > 0;
    hide Inv;
    hide EarlierDone;
    hide Moves;
    SetEntryKeeps(l, id, e.(notice := Some(n)));
  }

  lemma NoticeOpen(l: Ledger, id: Id)
    requires Inv(l) && id in l.entries && l.entries[id].notice.Some?
    ensures l.entries[id].notice.value.status == NoticePending || l.entries[id].notice.value.status == NoticeLeased ==> ConfirmationOpen(l.entries[id])
  {
    assert EntryOk(RelationClosed(l, l.entries[id].request.relation), l.entries[id]);
  }

  lemma RecoveredSteps(closed: bool, e: Entry, now: int)
    requires EntryOk(closed, e) && e.notice.Some?
    ensures var e' := e.(notice := Some(RecoveredNotice(e.notice.value, now))); EntryStep(e, e') && EntryOk(closed, e')
  {
  }

  lemma NoticeShift(l: Ledger, l': Ledger, now: int, id: Id)
    requires Inv(l) && id in l.entries && l' == RecoverNotices(l, now)
    ensures ShiftOk(l, l', id)
  {
    EntryIsOk(l, id);
    hide Inv;
    hide EarlierDone;
    hide EntryOk;
    hide EntryStep;
    hide RecoveredNotice;
    if l.entries[id].notice.Some? {
      RecoveredSteps(RelationClosed(l, l.entries[id].request.relation), l.entries[id], now);
    } else {
      EntryStepRefl(l.entries[id]);
    }
  }

  ghost predicate SamePermissionTables(l: Ledger, l': Ledger) {
    l'.relations == l.relations && l'.grants == l.grants && l'.threads == l.threads && l'.entries.Keys == l.entries.Keys
  }

  /** A change to request rows alone. */
  lemma RowsShift(l: Ledger, l': Ledger)
    requires Inv(l) && SamePermissionTables(l, l')
    requires forall id | id in l.entries :: ShiftOk(l, l', id)
    ensures Inv(l') && Moves(l, l')
  {
    hide ShiftOk;
    hide RequestRefs;
    assert Refs(l);
    hide Inv;
    assert Shifts(l, l') && Evolves(l, l');
    hide Shifts;
    hide Evolves;
    ShiftKeeps(l, l');
    hide EntriesStep;
  }

  lemma RecoverNoticesKeeps(l: Ledger, now: int)
    requires Inv(l)
    ensures Inv(RecoverNotices(l, now)) && Moves(l, RecoverNotices(l, now))
  {
    hide RecoverNotices;
    hide ShiftOk;
    hide Inv;
    hide Moves;
    var l' := RecoverNotices(l, now);
    SameTables(l, now);
    forall id | id in l.entries ensures ShiftOk(l, l', id) {
      NoticeShift(l, l', now, id);
    }
    RowsShift(l, l');
  }

  lemma SameTables(l: Ledger, now: int)
    ensures SamePermissionTables(l, RecoverNotices(l, now)) && SamePermissionTables(l, ExpireLeases(l, now))
  {
  }

  lemma {:induction false} PickNoticeKeeps(l: Ledger, rows: seq<Id>, now: int, until: int, token: Id)
    requires Inv(l)
    ensures var l' := After(l, PickNotice(l, rows, now, until, token)); Inv(l') && Moves(l, l')
    decreases |rows|
  {
    MovesRefl(l);
    hide Inv;
    hide Moves;
    hide HasHandle;
    if rows != [] && NoticeReady(l, rows[0], now) {
      var e := l.entries[rows[0]];
      var n := e.notice.value;
      NoticeOpen(l, rows[0]);
      NoticeKeeps(l, rows[0], SuppressedNotice(n));
      NoticeKeeps(l, rows[0], n.(status := NoticeLeased, token := Some(token), until := Some(until)));
      var l1 := SetEntry(l, rows[0], e.(notice := Some(SuppressedNotice(n))));
      hide SetEntry;
      PickNoticeKeeps(l1, rows[1..], now, until, token);
      MovesTrans(l, l1, After(l1, PickNotice(l1, rows[1..], now, until, token)));
    }
  }

  lemma ClaimNoticeKeeps(l: Ledger, rows: seq<Id>, now: int, seconds: int, token: Id)
    requires Inv(l)
    ensures var l' := After(l, ClaimNotice(l, rows, now, seconds, token)); Inv(l') && Moves(l, l')
  {
    MovesRefl(l);
    hide Inv;
    hide Moves;
    hide RecoverNotices;
    hide PickNotice;
    RecoverNoticesKeeps(l, now);
    var l1 := RecoverNotices(l, now);
    PickNoticeKeeps(l1, rows, now, now + seconds * MICROS, token);
    MovesTrans(l, l1, After(l1, PickNotice(l1, rows, now, now + seconds * MICROS, token)));
  }

  lemma NoticeEventsKeep(l: Ledger, e: Event)
    requires Inv(l) && (e.BeginningNotice? || e.CompletingNotice?)
    ensures Inv(Apply(l, e)) && Moves(l, Apply(l, e))
  {
    MovesRefl(l);
    hide Moves;
    hide Inv;
    if e.id in l.entries && l.entries[e.id].notice.Some? {
      NoticeOpen(l, e.id);
      var n := l.entries[e.id].notice.value;
      match e
      case BeginningNotice(id, token, now) =>
        if HoldsNotice(l, id, token, NoticeLeased, now) {
          NoticeKeeps(l, id, n.(status := Attempting));
        }
      case CompletingNotice(id, token, outcome, now) =>
        if outcome != NoticeLeased && outcome != Attempting && HoldsNotice(l, id, token, if outcome == NoticePending then NoticeLeased else Attempting, now) {
          NoticeKeeps(l, id, Notice(outcome, None, None, if outcome == NoticePending then now + 60 * MICROS else now));
        }
    }
  }

  // ----- Leases -----

  lemma ExpiredSteps(closed: bool, e: Entry, now: int)
    requires EntryOk(closed, e)
    ensures EntryStep(e, ExpiredEntry(e, now)) && EntryOk(closed, ExpiredEntry(e, now)) && ExpiredEntry(e, now).attempts == e.attempts
  {
  }

  lemma ExpiryShift(l: Ledger, l': Ledger, now: int, id: Id)
    requires Inv(l) && id in l.entries && l' == ExpireLeases(l, now)
    ensures ShiftOk(l, l', id)
  {
    EntryIsOk(l, id);
    hide Inv;
    hide EarlierDone;
    hide EntryOk;
    hide ExpiredEntry;
    ExpiredSteps(RelationClosed(l, l.entries[id].request.relation), l.entries[id], now);
    assert l'.entries[id].request == l.entries[id].request;
  }

  lemma ExpireKeeps(l: Ledger, now: int)
    requires Inv(l)
    ensures Inv(ExpireLeases(l, now)) && Moves(l, ExpireLeases(l, now))
  {
    hide ExpireLeases;
    hide ShiftOk;
    hide Inv;
    hide Moves;
    var l' := ExpireLeases(l, now);
    SameTables(l, now);
    forall id | id in l.entries ensures ShiftOk(l, l', id) {
      ExpiryShift(l, l', now, id);
    }
    RowsShift(l, l');
  }

  lemma LeaseSteps(closed: bool, e: Entry, token: Id, now: int, seconds: int, threadEnd: int)
    requires EntryOk(closed, e) && (e.status == Pending || e.status == Authorized)
    ensures var e' := LeasedEntry(e, token, now, seconds, threadEnd); EntryStep(e, e') && EntryOk(closed, e')
    ensures EntryStep(e, e.(status := Denied)) && EntryOk(closed, e.(status := Denied))
  {
  }

  /** What remains true of the rows still to be visited while the claim denies earlier ones. */
  ghost predicate Visitable(l: Ledger, rows: seq<Id>) {
    forall i | 0 <= i < |rows| :: EarlierDone(l, rows[i])
  }

  lemma DenyingKeepsVisitable(l: Ledger, id: Id, rows: seq<Id>)
    requires id in l.entries && Visitable(l, rows)
    ensures Visitable(SetEntry(l, id, l.entries[id].(status := Denied)), rows)
  {
    forall i | 0 <= i < |rows| ensures EarlierDone(SetEntry(l, id, l.entries[id].(status := Denied)), rows[i]) {
      assert EarlierDone(l, rows[i]);
    }
  }

  lemma {:induction false} PickRequestKeeps(l: Ledger, rows: seq<Id>, now: int, seconds: int, token: Id)
    requires Inv(l) && Visitable(l, rows)
    ensures var l' := After(l, PickRequest(l, rows, now, seconds, token)); Inv(l') && Moves(l, l')
    decreases |rows|
  {
    MovesRefl(l);
    hide Moves;
    if rows != [] && rows[0] in l.entries && (l.entries[rows[0]].status == Pending || l.entries[rows[0]].status == Authorized) {
      var e := l.entries[rows[0]];
      var closed := RelationClosed(l, e.request.relation);
      assert EntryOk(closed, e) && e.request.thread in l.threads by {
        assert RequestRefs(l, e.request);
      }
      hide Inv;
      assert EarlierDone(l, rows[0]) && forall i | 0 <= i < |rows[1..]| :: EarlierDone(l, rows[1..][i]);
      hide EarlierDone;
      LeaseSteps(closed, e, token, now, seconds, l.threads[e.request.thread].expires);
      hide EntryOk;
      hide EntryStep;
      var denied := e.(status := Denied);
      var l1 := SetEntry(l, rows[0], denied);
      SetEntryKeeps(l, rows[0], denied);
      DenyingKeepsVisitable(l, rows[0], rows[1..]);
      SetEntryKeeps(l, rows[0], LeasedEntry(e, token, now, seconds, l.threads[e.request.thread].expires));
      hide LeasedEntry;
      hide Visitable;
      hide SetEntry;
      PickRequestKeeps(l1, rows[1..], now, seconds, token);
      MovesTrans(l, l1, After(l1, PickRequest(l1, rows[1..], now, seconds, token)));
    }
  }

  lemma ClaimKeeps(l: Ledger, rows: seq<Id>, now: int, seconds: int, token: Id)
    requires Inv(l)
    ensures var l' := After(l, ClaimCandidates(l, rows, now, seconds, token)); Inv(l') && Moves(l, l')
  {
    MovesRefl(l);
    hide Inv;
    hide Moves;
    hide ExpireLeases;
    hide PickRequest;
    var l1 := ExpireLeases(l, now);
    if AllCandidates(l1, rows, now) {
      ExpireKeeps(l, now);
      forall i | 0 <= i < |rows| ensures EarlierDone(l1, rows[i]) {
        assert Candidate(l1, rows[i], now);
      }
      hide EarlierDone;
      hide AllCandidates;
      PickRequestKeeps(l1, rows, now, seconds, token);
      MovesTrans(l, l1, After(l1, PickRequest(l1, rows, now, seconds, token)));
    }
  }

  // ----- Every call -----

  lemma RequestEventsKeep(l: Ledger, e: Event)
    requires Inv(l)
    requires e.Submitting? || e.Deciding? || e.CancellingSuperseded? || e.DenyingSuperseded? || e.ClaimingNotice? || e.Claiming?
             || e.DenyingClaim? || e.Deferring? || e.Beating? || e.Finishing?
    ensures Inv(Apply(l, e)) && Moves(l, Apply(l, e))
  {
    hide Inv;
    hide Moves;
    hide Submit;
    hide DecideConfirmation;
    hide CancelSuperseded;
    hide DenySuperseded;
    hide ClaimNotice;
    hide ClaimCandidates;
    hide DenyClaim;
    hide Defer;
    hide Heartbeat;
    hide Finish;
    match e
    case Submitting(id, request, confirm, now) => SubmitKeeps(l, id, request, confirm, now);
    case Deciding(owner, id, approve, now) => DecideKeeps(l, owner, id, approve, now);
    case CancellingSuperseded(id) => SupersedingKeeps(l, id);
    case DenyingSuperseded(id) => SupersedingKeeps(l, id);
    case ClaimingNotice(rows, now, seconds, token) => ClaimNoticeKeeps(l, rows, now, seconds, token);
    case Claiming(rows, now, seconds, token) => ClaimKeeps(l, rows, now, seconds, token);
    case DenyingClaim(id, token) => DenyClaimKeeps(l, id, token);
    case Deferring(id, token, now) => DeferKeeps(l, id, token, now);
    case Beating(id, token, revisions, now, seconds) => HeartbeatKeeps(l, id, token, revisions, now, seconds);
    case Finishing(owner, id, token, frames, relationRevision, grantRevisions, failed, now) =>
      FinishKeeps(l, owner, id, token, frames, relationRevision, grantRevisions, failed, now);
  }

  lemma RelationEventsKeep(l: Ledger, e: Event)
    requires Inv(l) && (e.Registering? || e.Inviting? || e.Accepting? || e.Granting?)
    ensures Inv(Apply(l, e)) && Moves(l, Apply(l, e))
  {
    hide Inv;
    hide Moves;
    hide RegisterHandle;
    hide Invite;
    hide Accept;
    hide UpdateGrant;
    match e
    case Registering(owner, handle) => RegisterKeeps(l, owner, handle);
    case Inviting(owner, handle, id, now) => InviteKeeps(l, owner, handle, id, now);
    case Accepting(owner, id) => AcceptKeeps(l, owner, id);
    case Granting(owner, id, grantee, communicate, autoReply, share, expected, expires, now) =>
      GrantKeeps(l, owner, id, grantee, communicate, autoReply, share, expected, expires, now);
  }

  /** Every store call keeps the invariant, and moves permissions and requests only as they may. */
  lemma ApplyKeeps(l: Ledger, e: Event)
    requires Inv(l)
    ensures Inv(Apply(l, e)) && Moves(l, Apply(l, e))
  {
    hide Apply;
    hide Inv;
    hide Moves;
    if e.Registering? || e.Inviting? || e.Accepting? || e.Granting? {
      RelationEventsKeep(l, e);
    } else if e.Revoking? || e.DeletingOwner? {
      ClosingEventsKeep(l, e);
    } else if e.BeginningNotice? || e.CompletingNotice? {
      NoticeEventsKeep(l, e);
    } else {
      RequestEventsKeep(l, e);
    }
  }

  ghost function Play(l: Ledger, events: seq<Event>): (l': Ledger)
    requires Inv(l)
    ensures Inv(l') && Moves(l, l')
    decreases |events|
  {
    if events == [] then
      MovesRefl(l);
      l
    else
      ApplyKeeps(l, events[0]);
      var l' := Play(Apply(l, events[0]), events[1..]);
      MovesTrans(l, Apply(l, events[0]), l');
      l'
  }
}
