/** What each store call on handles, relationships, grants, submissions and notices accepts and the rows it leaves: said
    of stored columns. */
module PeerRelationEffects {
  import opened Wrappers
  import opened PeerPolicy
  import opened PeerLedger
  import opened PeerInvariant
  import opened PeerHistory
  import opened PeerGuarantees
  import opened PeerEffects

  // ----- Handles and invitations -----

  /** A handle belongs to one owner, and an owner has one handle: registering gives up the one before. A deleted owner
      gets none. */
  lemma RegistrationExactly(l: Ledger, owner: Owner, handle: string)
    ensures var s := RegisterHandle(l, owner, handle);
      if owner in l.deleted || (handle in l.handles && l.handles[handle] != owner) then s.Aborted?
      else
        && s.Committed? && s.ledger == l.(handles := s.ledger.handles)
        && forall h :: (h in s.ledger.handles <==> h == handle || (h in l.handles && l.handles[h] != owner))
                       && (h in s.ledger.handles ==> s.ledger.handles[h] == if h == handle then owner else l.handles[h])
  {
  }

  /** Invitations of the last hour that are still open, by their inviter or to an invitee. */
  ghost function OpenInvitations(l: Ledger, owner: Owner, sent: bool, now: int): set<Id> {
    set r | r in l.relations && l.relations[r].status.Invited? && now - 3_600_000_000 <= l.relations[r].createdAt
      && (if sent then l.relations[r].invitedBy == owner else l.relations[r].invitedBy != owner && (l.relations[r].a == owner || l.relations[r].b == owner))
  }

  /** Inviting: an unknown handle answers no; a relationship that exists in either direction answers yes and changes
      nothing; oneself, a deleted inviter, ten open invitations sent or twenty received within the hour raise; otherwise
      an invited relationship is stored. */
  lemma InvitationExactly(l: Ledger, owner: Owner, handle: string, id: Id, now: int)
    ensures var s := Invite(l, owner, handle, id, now);
      if owner in l.deleted then s.Aborted?
      else if handle !in l.handles then s == Committed(l, false)
      else
        var other := l.handles[handle];
        if other == owner then s.Aborted?
        else if exists r | r in l.relations :: (l.relations[r].a == owner && l.relations[r].b == other) || (l.relations[r].a == other && l.relations[r].b == owner)
        then s == Committed(l, true)
        else if |OpenInvitations(l, owner, true, now)| >= 10 || |OpenInvitations(l, other, false, now)| >= 20 || id in l.relations then s.Aborted?
        else s == Committed(l.(relations := l.relations[id := Relationship(if owner < other then owner else other, if owner < other then other else owner, owner, Invited, now, 1)]), true)
  {
    if handle in l.handles {
      var other := l.handles[handle];
      InvitationsCounted(l, owner, other, now);
      hide RecentInvites;
      hide RecentInvitations;
      hide OpenInvitations;
      if exists r | r in l.relations :: (l.relations[r].a == owner && l.relations[r].b == other) || (l.relations[r].a == other && l.relations[r].b == owner) {
        var r :| r in l.relations && ((l.relations[r].a == owner && l.relations[r].b == other) || (l.relations[r].a == other && l.relations[r].b == owner));
        assert Between(l.relations[r], owner, other);
      }
    }
  }

  lemma InvitationsCounted(l: Ledger, inviter: Owner, invitee: Owner, now: int)
    ensures RecentInvites(l, inviter, now - HOUR) == |OpenInvitations(l, inviter, true, now)|
    ensures RecentInvitations(l, invitee, now - HOUR) == |OpenInvitations(l, invitee, false, now)|
  {
    var since := now - HOUR;
    var sent := set r | r in l.relations && l.relations[r].invitedBy == inviter && l.relations[r].status == Invited && l.relations[r].createdAt >= since;
    var received := set r | r in l.relations && l.relations[r].status == Invited && l.relations[r].invitedBy != invitee && l.relations[r].Has(invitee) && l.relations[r].createdAt >= since;
    assert sent == OpenInvitations(l, inviter, true, now);
    assert received == OpenInvitations(l, invitee, false, now);
  }

  /** Only the invited owner accepts, an open invitation becomes active under a new revision, and accepting again is
      answered the same. */
  lemma AcceptanceExactly(l: Ledger, owner: Owner, id: Id)
    ensures Accept(l, owner, id) ==
      if id !in l.relations || (l.relations[id].a != owner && l.relations[id].b != owner) then Committed(l, NotFound)
      else if l.relations[id].invitedBy == owner then Committed(l, NotInvitee)
      else match l.relations[id].status
        case Active => Committed(l, Accepted)
        case Invited => Committed(l.(relations := l.relations[id := l.relations[id].(status := Active, revision := l.relations[id].revision + 1)]), Accepted)
        case _ => Committed(l, NotPending)
  {
  }

  // ----- Grants -----

  /** A grant is changed by one owner of an active relationship towards the other, at the revision it is expected to
      have, zero before the first one; any other revision raises. */
  lemma GrantExactly(l: Ledger, owner: Owner, id: Id, grantee: Owner, communicate: bool, autoReply: bool, share: bool, expected: nat, expires: Option<int>, now: int)
    ensures var s := UpdateGrant(l, owner, id, grantee, communicate, autoReply, share, expected, expires, now);
      var key := GrantKey(id, owner);
      if id in l.relations && l.relations[id].status.Active? && owner != grantee
         && (owner == l.relations[id].a || owner == l.relations[id].b) && (grantee == l.relations[id].a || grantee == l.relations[id].b)
      then s == if expected == (if key in l.grants then l.grants[key].revision else 0)
                then Committed(l.(grants := l.grants[key := Grant(communicate, autoReply, share, expected + 1, expires, now)]), true) else Aborted
      else s == Committed(l, false)
  {
  }

  // ----- Closing a relationship -----

  /** The row of a request whose relationship is closed: denied if it was not finished. What was not shown yet is
      suppressed; an owner's deletion suppresses every notice. */
  function ClosedRow(e: Entry, deletion: bool): Entry {
    var e1 := if e.status in [Completed, Failed, Denied] then e else e.(status := Denied, token := None, until := None);
    e1.(notice := if deletion && e.notice.Some? then Some(Notice(NoticeSuppressed, None, None, e.notice.value.availableAt)) else Quieted(e.notice, false))
  }

  ghost predicate ClosesRequests(l: Ledger, l': Ledger, relation: Id, deletion: bool) {
    && l'.entries.Keys == l.entries.Keys
    && forall r | r in l.entries :: l'.entries[r] == if l.entries[r].request.relation == relation then ClosedRow(l.entries[r], deletion) else l.entries[r]
  }

  lemma EntriesClose(l: Ledger, relation: Id, deletion: bool)
    ensures var l' := CloseEntries(l, relation, deletion); l' == l.(entries := l'.entries) && ClosesRequests(l, l', relation, deletion)
  {
    forall e ensures ClosedEntry(e, deletion) == ClosedRow(e, deletion) {
      RowCloses(e, deletion);
    }
    hide ClosedEntry;
    hide ClosedRow;
  }

  lemma RowCloses(e: Entry, deletion: bool)
    ensures ClosedEntry(e, deletion) == ClosedRow(e, deletion)
  {
  }

  /** Either owner revokes or blocks an open relationship, once: it gets a new revision, and its requests are closed. */
  lemma RevocationExactly(l: Ledger, owner: Owner, id: Id, block: bool)
    ensures var s := Revoke(l, owner, id, block);
      if id !in l.relations || !(l.relations[id].status.Invited? || l.relations[id].status.Active?) || (l.relations[id].a != owner && l.relations[id].b != owner)
      then s == Committed(l, false)
      else
        && s.Committed? && s.value && s.ledger == l.(relations := s.ledger.relations, entries := s.ledger.entries)
        && s.ledger.relations == l.relations[id := l.relations[id].(status := if block then Blocked else Revoked, revision := l.relations[id].revision + 1)]
        && ClosesRequests(l, s.ledger, id, false)
  {
    if Revocable(l, id) {
      EntriesClose(SetRelation(l, id, if block then Blocked else Revoked), id, false);
    }
    hide CloseEntries;
    hide ClosedRow;
  }

  // ----- Deleting an owner -----

  /** What has happened to these relationships: revoked if open, their requests closed, their grants gone. */
  ghost predicate Dissolves(l: Ledger, l': Ledger, ids: seq<Id>) {
    && l'.handles == l.handles && l'.deleted == l.deleted && l'.threads == l.threads
    && l'.relations.Keys == l.relations.Keys && l'.entries.Keys == l.entries.Keys
    && (forall r | r in l.relations :: l'.relations[r] ==
          if r in ids && (l.relations[r].status.Invited? || l.relations[r].status.Active?) then l.relations[r].(status := Revoked, revision := l.relations[r].revision + 1) else l.relations[r])
    && (forall e | e in l.entries :: l'.entries[e] == if l.entries[e].request.relation in ids then ClosedRow(l.entries[e], true) else l.entries[e])
    && (forall k :: (k in l'.grants <==> k in l.grants && k.relation !in ids) && (k in l'.grants ==> l'.grants[k] == l.grants[k]))
  }

  lemma OneDissolves(l: Ledger, id: Id)
    requires id in l.relations
    ensures Dissolves(l, CloseForDeletion(l, id), [id])
  {
    EntriesClose(if Revocable(l, id) then SetRelation(l, id, Revoked) else l, id, true);
    hide CloseEntries;
    hide ClosedRow;
  }

  lemma ClosedTwice(e: Entry)
    ensures ClosedRow(ClosedRow(e, true), true) == ClosedRow(e, true) && ClosedRow(e, true).request == e.request
  {
  }

  lemma DissolvesOn(l: Ledger, l1: Ledger, l2: Ledger, first: Id, rest: seq<Id>)
    requires Dissolves(l, l1, [first]) && Dissolves(l1, l2, rest)
    ensures Dissolves(l, l2, [first] + rest)
  {
    forall e ensures ClosedRow(ClosedRow(e, true), true) == ClosedRow(e, true) && ClosedRow(e, true).request == e.request {
      ClosedTwice(e);
    }
    hide ClosedRow;
  }

  lemma {:induction false} AllDissolve(l: Ledger, ids: seq<Id>)
    requires forall i | 0 <= i < |ids| :: ids[i] in l.relations
    ensures Dissolves(l, CloseAll(l, ids), ids)
    decreases |ids|
  {
    if ids == [] {
      hide ClosedRow;
    } else {
      var l1 := CloseForDeletion(l, ids[0]);
      OneDissolves(l, ids[0]);
      hide CloseForDeletion;
      assert l1.relations.Keys == l.relations.Keys;
      hide Dissolves;
      AllDissolve(l1, ids[1..]);
      DissolvesOn(l, l1, CloseAll(l1, ids[1..]), ids[0], ids[1..]);
      assert [ids[0]] + ids[1..] == ids;
    }
  }

  /** Deleting an owner gives up the handle for good, dissolves all relationships of the owner and touches no other. */
  lemma DeletionExactly(l: Ledger, owner: Owner, ids: seq<Id>)
    requires forall r :: r in ids <==> r in l.relations && (l.relations[r].a == owner || l.relations[r].b == owner)
    ensures var s := DeleteOwner(l, owner, ids);
      && s.Committed? && s.ledger.deleted == l.deleted + {owner} && Dissolves(l, s.ledger.(deleted := l.deleted, handles := l.handles), ids)
      && forall h :: (h in s.ledger.handles <==> h in l.handles && l.handles[h] != owner) && (h in s.ledger.handles ==> s.ledger.handles[h] == l.handles[h])
  {
    AllDissolve(l, ids);
    hide CloseAll;
    hide ClosedRow;
    var s := DeleteOwner(l, owner, ids);
    assert s.Committed?;
  }

  // ----- Submitting -----

  /** Requests of the relationship from the last hour. */
  ghost function Recent(l: Ledger, relation: Id, now: int): set<Id> {
    set r | r in l.entries && l.entries[r].request.relation == relation && now - 3_600_000_000 <= l.entries[r].request.createdAt
  }

  /** The row of a new request: waiting, or, with a notice to the recipient, for a confirmation that records the text, the
      revisions of this moment and an expiry a quarter of an hour on. */
  function SubmittedRow(l: Ledger, r: Request, sequence: nat, confirm: bool, now: int): Entry
    requires r.relation in l.relations
  {
    Entry(r.(sequence := sequence, createdAt := now), if confirm then ConfirmationPending else Pending, None, None, None, 0, now,
      if confirm then Some(Confirmation(r.recipient, Open, r.text, now + 900_000_000, l.relations[r.relation].revision, GrantRevisions(l, r.relation))) else None,
      if confirm then Some(Notice(NoticePending, None, None, now)) else None, None)
  }

  /** Submitting: a call seen before changes nothing; the eleventh request within the hour raises, and so do an unknown
      relationship, a request to oneself, and a thread that is not theirs, has ended or is full; otherwise the request
      is stored as the next of its thread, which the first one opens for a quarter of an hour. */
  lemma SubmissionExactly(l: Ledger, id: Id, r: Request, confirm: bool, now: int)
    ensures var s := Submit(l, id, r, confirm, now);
      if exists d | d in l.entries :: l.entries[d].request.sender == r.sender && l.entries[d].request.generation == r.generation && l.entries[d].request.call == r.call
      then s == Committed(l, true)
      else if |Recent(l, r.relation, now)| >= 10 || r.sender == r.recipient || r.relation !in l.relations || id in l.entries then s.Aborted?
      else if r.thread !in l.threads then
        s == Committed(l.(threads := l.threads[r.thread := Thread(r.relation, r.sender, r.recipient, now, now + 900_000_000, 1)],
                          entries := l.entries[id := SubmittedRow(l, r, 1, confirm, now)]), false)
      else
        var t := l.threads[r.thread];
        if t.relation != r.relation || t.sender != r.sender || t.recipient != r.recipient || t.expires <= now || t.count >= 4 then s.Aborted?
        else s == Committed(l.(threads := l.threads[r.thread := t.(count := t.count + 1)], entries := l.entries[id := SubmittedRow(l, r, t.count + 1, confirm, now)]), false)
  {
    RecentCounted(l, r.relation, now);
    hide RequestsSince;
    hide Recent;
    hide GrantRevisions;
    if exists d | d in l.entries :: l.entries[d].request.sender == r.sender && l.entries[d].request.generation == r.generation && l.entries[d].request.call == r.call {
      var d :| d in l.entries && l.entries[d].request.sender == r.sender && l.entries[d].request.generation == r.generation && l.entries[d].request.call == r.call;
      assert SameCall(l.entries[d].request, r);
    }
  }

  lemma RecentCounted(l: Ledger, relation: Id, now: int)
    ensures RequestsSince(l, relation, now - HOUR) == Recent(l, relation, now)
  {
  }

  // ----- Notices -----

  /** An expired lease of a notice is given back; one that was being shown may have been seen. */
  function NoticeAfterExpiry(n: Notice, now: int): Notice {
    if n.until.Some? && n.until.value <= now && n.status.Attempting? then Notice(NoticeUnknown, None, None, n.availableAt)
    else if n.until.Some? && n.until.value <= now && n.status.NoticeLeased? then Notice(NoticePending, None, None, n.availableAt)
    else n
  }

  lemma NoticesRecoverExactly(l: Ledger, now: int)
    ensures var l' := RecoverNotices(l, now);
      && l' == l.(entries := l'.entries) && l'.entries.Keys == l.entries.Keys
      && forall id | id in l.entries :: l'.entries[id] ==
           if l.entries[id].notice.Some? then l.entries[id].(notice := Some(NoticeAfterExpiry(l.entries[id].notice.value, now))) else l.entries[id]
  {
  }

  /** A notice is worth showing while its confirmation is open and in time, and both the relationship and the sender's
      handle are there. */
  predicate Showable(l: Ledger, e: Entry, now: int) {
    && e.confirmation.Some? && e.confirmation.value.status.Open? && now < e.confirmation.value.expires
    && e.request.relation in l.relations && l.relations[e.request.relation].status.Active?
    && exists h | h in l.handles :: l.handles[h] == e.request.sender
  }

  ghost predicate Waiting(l: Ledger, rows: seq<Id>, now: int) {
    && (forall i | 0 <= i < |rows| :: rows[i] in l.entries && l.entries[rows[i]].notice.Some? && l.entries[rows[i]].notice.value.status.NoticePending? && l.entries[rows[i]].notice.value.availableAt <= now)
    && (forall i, j | 0 <= i < j < |rows| :: rows[i] != rows[j])
  }

  function NoticedRow(e: Entry, status: NoticeStatus, token: Option<Id>, until: Option<int>): Entry
    requires e.notice.Some?
  {
    e.(notice := Some(Notice(status, token, until, e.notice.value.availableAt)))
  }

  ghost predicate ShowsNotice(l: Ledger, l': Ledger, rows: seq<Id>, i: nat, now: int, until: int, token: Id) {
    && i <= |rows| && l' == l.(entries := l'.entries) && l'.entries.Keys == l.entries.Keys
    && (forall k | 0 <= k < i :: rows[k] in l.entries && l.entries[rows[k]].notice.Some? && !Showable(l, l.entries[rows[k]], now) && l'.entries[rows[k]] == NoticedRow(l.entries[rows[k]], NoticeSuppressed, None, None))
    && (forall id | id in l.entries && id !in rows[..i] && (i < |rows| ==> id != rows[i]) :: l'.entries[id] == l.entries[id])
    && (i < |rows| ==>
          && rows[i] in l.entries && l.entries[rows[i]].notice.Some? && Showable(l, l.entries[rows[i]], now)
          && l'.entries[rows[i]] == NoticedRow(l.entries[rows[i]], NoticeLeased, Some(token), Some(until)))
  }

  lemma ShowableHere(l: Ledger, e: Entry, now: int)
    ensures !(!ConfirmationOpen(e) || e.confirmation.value.expires <= now || !RelationActive(l, e.request.relation) || !HasHandle(l, e.request.sender)) <==> Showable(l, e, now)
  {
  }

  lemma PickNoticeHere(l: Ledger, rows: seq<Id>, now: int, until: int, token: Id)
    requires rows != [] && Waiting(l, rows, now)
    ensures var e := l.entries[rows[0]]; var s := PickNotice(l, rows, now, until, token);
      if Showable(l, e, now) then s == Committed(SetEntry(l, rows[0], NoticedRow(e, NoticeLeased, Some(token), Some(until))), Some(rows[0]))
      else s == PickNotice(SetEntry(l, rows[0], NoticedRow(e, NoticeSuppressed, None, None)), rows[1..], now, until, token)
  {
    ShowableHere(l, l.entries[rows[0]], now);
    hide Showable;
    hide HasHandle;
  }

  lemma {:induction false} PickNoticeExactly(l: Ledger, rows: seq<Id>, now: int, until: int, token: Id)
    requires Waiting(l, rows, now)
    ensures var s := PickNotice(l, rows, now, until, token);
      s.Committed? && exists i: nat :: ShowsNotice(l, s.ledger, rows, i, now, until, token) && s.value == if i < |rows| then Some(rows[i]) else None
    decreases |rows|
  {
    if rows == [] {
      assert ShowsNotice(l, l, rows, 0, now, until, token);
    } else {
      PickNoticeHere(l, rows, now, until, token);
      hide PickNotice;
      hide Showable;
      var e := l.entries[rows[0]];
      if Showable(l, e, now) {
        assert ShowsNotice(l, PickNotice(l, rows, now, until, token).ledger, rows, 0, now, until, token);
      } else {
        var l1 := SetEntry(l, rows[0], NoticedRow(e, NoticeSuppressed, None, None));
        WaitingOn(l, l1, rows, now);
        PickNoticeExactly(l1, rows[1..], now, until, token);
        var s := PickNotice(l1, rows[1..], now, until, token);
        var i: nat :| ShowsNotice(l1, s.ledger, rows[1..], i, now, until, token) && s.value == if i < |rows[1..]| then Some(rows[1..][i]) else None;
        ShowsOn(l, l1, s.ledger, rows, i, now, until, token);
        hide ShowsNotice;
      }
    }
  }

  lemma WaitingOn(l: Ledger, l1: Ledger, rows: seq<Id>, now: int)
    requires rows != [] && Waiting(l, rows, now) && l1.entries.Keys == l.entries.Keys && forall id | id in l.entries && id != rows[0] :: l1.entries[id] == l.entries[id]
    ensures Waiting(l1, rows[1..], now) && rows[0] !in rows[1..]
  {
  }

  lemma ShowsOn(l: Ledger, l1: Ledger, l': Ledger, rows: seq<Id>, i: nat, now: int, until: int, token: Id)
    requires rows != [] && rows[0] in l.entries && l.entries[rows[0]].notice.Some? && !Showable(l, l.entries[rows[0]], now) && rows[0] !in rows[1..]
    requires l1 == SetEntry(l, rows[0], NoticedRow(l.entries[rows[0]], NoticeSuppressed, None, None)) && ShowsNotice(l1, l', rows[1..], i, now, until, token)
    ensures ShowsNotice(l, l', rows, i + 1, now, until, token)
  {
    assert forall id | id in l.entries && id != rows[0] :: l1.entries[id] == l.entries[id];
    assert forall k | 0 <= k < |rows| - 1 :: rows[1..][k] == rows[k + 1] && rows[k + 1] != rows[0];
    assert rows[..i + 1] == [rows[0]] + rows[1..][..i];
    forall e: Entry ensures Showable(l1, e, now) == Showable(l, e, now) {}
    hide NoticedRow;
    hide Showable;
  }

  /** A claim of a notice first gives back expired leases, then leases the first listed notice worth showing and
      suppresses those listed before it. */
  lemma NoticeClaimExactly(l: Ledger, rows: seq<Id>, now: int, seconds: int, token: Id)
    requires Waiting(RecoverNotices(l, now), rows, now)
    ensures var s := ClaimNotice(l, rows, now, seconds, token);
      if seconds < 1 || seconds > 3600 then s.Aborted?
      else s.Committed? && exists i: nat :: ShowsNotice(RecoverNotices(l, now), s.ledger, rows, i, now, now + seconds * 1_000_000, token) && s.value == if i < |rows| then Some(rows[i]) else None
  {
    hide RecoverNotices;
    hide PickNotice;
    hide ShowsNotice;
    hide Waiting;
    PickNoticeExactly(RecoverNotices(l, now), rows, now, now + seconds * 1_000_000, token);
  }

  predicate HasNotice(l: Ledger, id: Id, token: Id, now: int) {
    && id in l.entries && l.entries[id].notice.Some? && l.entries[id].notice.value.token == Some(token)
    && l.entries[id].notice.value.until.Some? && now < l.entries[id].notice.value.until.value
  }

  /** A leased notice is begun once, while its lease lasts; it is settled while it is being shown, or given back for a
      minute before. */
  lemma NoticeCallsExactly(l: Ledger, id: Id, token: Id, outcome: NoticeStatus, now: int)
    ensures BeginNotice(l, id, token, now) ==
      if HasNotice(l, id, token, now) && l.entries[id].notice.value.status.NoticeLeased?
      then Committed(l.(entries := l.entries[id := l.entries[id].(notice := Some(l.entries[id].notice.value.(status := Attempting)))]), true)
      else Committed(l, false)
    ensures CompleteNotice(l, id, token, outcome, now) ==
      match outcome
      case NoticeLeased => Aborted
      case Attempting => Aborted
      case NoticePending =>
        if HasNotice(l, id, token, now) && l.entries[id].notice.value.status.NoticeLeased?
        then Committed(l.(entries := l.entries[id := l.entries[id].(notice := Some(Notice(NoticePending, None, None, now + 60_000_000)))]), true)
        else Committed(l, false)
      case _ =>
        if HasNotice(l, id, token, now) && l.entries[id].notice.value.status.Attempting?
        then Committed(l.(entries := l.entries[id := l.entries[id].(notice := Some(Notice(outcome, None, None, now)))]), true)
        else Committed(l, false)
  {
  }
}
