/** The peer tables as they are held: updated in place, one method per store call. */
module PeerStore {
  import opened Wrappers
  import opened PeerPolicy
  import opened PeerLedger
  import opened PeerInvariant
  import opened PeerHistory

  ghost predicate Outcome<T(!new)>(before: Ledger, step: Step<T>, after: Ledger, r: Result<T>) {
    match step
    case Aborted => r == Raised && after == before
    case Committed(l, v) => r == Ok(v) && after == l
  }

  /** The entry was stored by this very call of the sender's generation. */
  /** Exactly the requests that may be leased, each once, in any order. */
  ghost predicate ListsCandidates(l: Ledger, rows: seq<Id>, now: int) {
    AllCandidates(l, rows, now) && forall id | Candidate(l, id, now) :: id in rows
  }

  predicate IsCall(l: Ledger, id: Id, r: Request) {
    id in l.entries && SameCall(l.entries[id].request, r)
  }

  lemma NewEntryIsCall(l: Ledger, r: Request, sequence: nat, confirm: bool, now: int)
    requires r.relation in l.relations
    ensures SameCall(NewEntry(l, r, sequence, confirm, now).request, r)
  {
  }

  class Store {
    var handles: map<string, Owner>
    var deleted: set<Owner>
    var relations: map<Id, Relationship>
    var grants: map<GrantKey, Grant>
    var threads: map<Id, Thread>
    var entries: map<Id, Entry>

    function State(): Ledger
      reads this
    {
      Ledger(handles, deleted, relations, grants, threads, entries)
    }

    constructor ()
      ensures State() == EMPTY
    {
      handles, deleted, relations, grants, threads, entries := map[], {}, map[], map[], map[], map[];
    }

    method Rollback(saved: Ledger)
      modifies this
      ensures State() == saved
    {
      handles, deleted, relations, grants, threads, entries :=
        saved.handles, saved.deleted, saved.relations, saved.grants, saved.threads, saved.entries;
    }

    // ----- Permissions -----

    method SetGrant(owner: Owner, id: Id, grantee: Owner, communicate: bool, autoReply: bool, share: bool, expected: nat, expires: Option<int>, now: int) returns (r: Result<bool>)
      modifies this`grants
      ensures Outcome(old(State()), UpdateGrant(old(State()), owner, id, grantee, communicate, autoReply, share, expected, expires, now), State(), r)
    {
      if !RelationActive(State(), id) || !relations[id].Has(owner) || grantee == owner || !relations[id].Has(grantee) {
        return Ok(false);
      }
      var key := GrantKey(id, owner);
      var current := if key in grants then grants[key].revision else 0;
      if current != expected {
        return Raised;
      }
      grants := grants[key := Grant(communicate, autoReply, share, current + 1, expires, now)];
      return Ok(true);
    }

    method AcceptInvite(owner: Owner, id: Id) returns (answer: Acceptance)
      modifies this`relations
      ensures Outcome(old(State()), Accept(old(State()), owner, id), State(), Ok(answer))
    {
      if id !in relations || !relations[id].Has(owner) {
        return NotFound;
      }
      var row := relations[id];
      if row.invitedBy == owner {
        return NotInvitee;
      }
      if row.status == Active {
        return Accepted;
      }
      if row.status != Invited {
        return NotPending;
      }
      relations := relations[id := row.(status := Active, revision := row.revision + 1)];
      return Accepted;
    }

    method CloseRequests(id: Id, allNotices: bool)
      modifies this`entries
      ensures State() == CloseEntries(old(State()), id, allNotices)
    {
      entries := map r | r in entries :: if entries[r].request.relation == id then ClosedEntry(entries[r], allNotices) else entries[r];
    }

    method Withdraw(owner: Owner, id: Id, block: bool) returns (changed: bool)
      modifies this`relations, this`entries
      ensures Outcome(old(State()), Revoke(old(State()), owner, id, block), State(), Ok(changed))
    {
      if id !in relations || Closed(relations[id].status) || !relations[id].Has(owner) {
        return false;
      }
      relations := relations[id := relations[id].(status := if block then Blocked else Revoked, revision := relations[id].revision + 1)];
      CloseRequests(id, false);
      return true;
    }

    method CloseOne(id: Id)
      modifies this`relations, this`entries, this`grants
      ensures State() == CloseForDeletion(old(State()), id)
    {
      if id in relations && !Closed(relations[id].status) {
        relations := relations[id := relations[id].(status := Revoked, revision := relations[id].revision + 1)];
      }
      CloseRequests(id, true);
      grants := map k | k in grants && k.relation != id :: grants[k];
    }

    /** `delete_owner`: close every relationship of the owner, then forget its handles. */
    method Delete(owner: Owner, ids: seq<Id>) returns (r: Result<()>)
      modifies this
      ensures Outcome(old(State()), DeleteOwner(old(State()), owner, ids), State(), r)
    {
      ghost var before := State();
      if !ListsRelations(State(), owner, ids) {
        return Raised;
      }
      for i := 0 to |ids|
        invariant CloseAll(State(), ids[i..]) == CloseAll(before, ids)
      {
        hide CloseForDeletion;
        assert ids[i..][0] == ids[i] && ids[i..][1..] == ids[i + 1..];
        CloseOne(ids[i]);
      }
      deleted := deleted + {owner};
      handles := map h | h in handles && handles[h] != owner :: handles[h];
      return Ok(());
    }

    // ----- Requests and confirmations -----

    /** `duplicate_submission`: the request an earlier call of the same generation stored, if there is one. */
    method FindCall(r: Request) returns (saved: Option<Id>)
      ensures saved.Some? ==> IsCall(State(), saved.value, r)
      ensures saved.None? ==> forall d :: !IsCall(State(), d, r)
    {
      var rest := entries.Keys;
      while rest != {}
        invariant rest <= entries.Keys
        invariant forall d :: IsCall(State(), d, r) ==> d in rest
        decreases |rest|
      {
        var id: Id :| id in rest;
        if SameCall(entries[id].request, r) {
          return Some(id);
        }
        rest := rest - {id};
      }
      return None;
    }

    /** `submit`: answers with the stored request, and whether an earlier call had stored it. */
    method Add(id: Id, r: Request, confirm: bool, now: int) returns (saved: Result<(Id, bool)>)
      modifies this`threads, this`entries
      ensures match Submit(old(State()), id, r, confirm, now)
              case Aborted => saved == Raised && State() == old(State())
              case Committed(l, repeated) => State() == l && saved.Ok? && saved.value.1 == repeated && IsCall(l, saved.value.0, r) && (!repeated ==> saved.value.0 == id)
    {
      hide NewEntry;
      ghost var before := State();
      var known := FindCall(r);
      assert forall d | d in entries :: SameCall(entries[d].request, r) == IsCall(State(), d, r);
      if known.Some? {
        return Ok((known.value, true));
      }
      if |RequestsSince(State(), r.relation, now - HOUR)| >= MAX_HOURLY_REQUESTS {
        return Raised;
      }
      hide RequestsSince;
      if r.sender == r.recipient || r.relation !in relations || id in entries {
        return Raised;
      }
      var sequence;
      if r.thread !in threads {
        sequence := 1;
      } else {
        var t := threads[r.thread];
        if !ThreadFits(t, r) || t.expires <= now || t.count >= MAX_THREAD_REQUESTS {
          return Raised;
        }
        sequence := t.count + 1;
      }
      var e := NewEntry(State(), r, sequence, confirm, now);
      threads := threads[r.thread := if r.thread in threads then threads[r.thread].(count := sequence) else Thread(r.relation, r.sender, r.recipient, now, now + THREAD_LIFETIME, 1)];
      entries := entries[id := e];
      NewEntryIsCall(before, r, sequence, confirm, now);
      return Ok((id, false));
    }

    method Decide(owner: Owner, id: Id, approve: bool, now: int) returns (answer: Answer)
      modifies this`entries
      ensures Outcome(old(State()), DecideConfirmation(old(State()), owner, id, approve, now), State(), Ok(answer))
    {
      if id !in entries || entries[id].confirmation.None? || entries[id].confirmation.value.owner != owner {
        return Missing;
      }
      var e := entries[id];
      if e.confirmation.value.status != Open {
        return Replayed;
      }
      var valid := StillValid(State(), e, now);
      if e.confirmation.value.expires <= now {
        entries := entries[id := Decided(e, Expired, Denied)];
        return Late;
      }
      var confirmed := approve && valid;
      entries := entries[id := Decided(e, if confirmed then Confirmed else Cancelled, if confirmed then Authorized else Denied)];
      return if confirmed then Granted else Refused;
    }

    method Cancel(id: Id) returns (cancelled: bool)
      modifies this`entries
      ensures Outcome(old(State()), CancelSuperseded(old(State()), id), State(), Ok(cancelled))
    {
      if id !in entries || !ConfirmationOpen(entries[id]) {
        return false;
      }
      entries := entries[id := CancelledEntry(entries[id])];
      if entries[id].status == ConfirmationPending {
        entries := entries[id := entries[id].(status := Denied)];
      }
      return true;
    }

    method Deny(id: Id) returns (denied: bool)
      modifies this`entries
      ensures Outcome(old(State()), DenySuperseded(old(State()), id), State(), Ok(denied))
    {
      if id !in entries {
        return false;
      }
      entries := entries[id := CancelledEntry(entries[id])];
      if Terminal(entries[id].status) {
        return false;
      }
      entries := entries[id := entries[id].(status := Denied, token := None, until := None)];
      return true;
    }

    // ----- Leases -----

    /** The rows of the first query: what is to be given up. */
    method ExhaustedRows(now: int) returns (rows: seq<Id>)
      ensures forall id :: id in rows <==> id in entries && Exhausted(entries[id], now)
    {
      rows := [];
      var rest := entries.Keys;
      while rest != {}
        invariant rest <= entries.Keys
        invariant forall id :: id in rows <==> id in entries && id !in rest && Exhausted(entries[id], now)
        decreases |rest|
      {
        hide Exhausted;
        var id: Id :| id in rest;
        if Exhausted(entries[id], now) {
          rows := rows + [id];
        }
        rest := rest - {id};
      }
    }

    /** The rows of the second query: what may be leased next. */
    method CandidateRows(now: int) returns (rows: seq<Id>)
      ensures ListsCandidates(State(), rows, now)
    {
      rows := [];
      var rest := entries.Keys;
      while rest != {}
        invariant rest <= entries.Keys
        invariant forall i | 0 <= i < |rows| :: rows[i] !in rest && Candidate(State(), rows[i], now)
        invariant forall i, j | 0 <= i < j < |rows| :: rows[i] != rows[j]
        invariant forall id | Candidate(State(), id, now) :: id in rest || id in rows
        decreases |rest|
      {
        var id: Id :| id in rest;
        if Candidate(State(), id, now) {
          rows := rows + [id];
        }
        rest := rest - {id};
        hide Candidate;
      }
      assert forall id | Candidate(State(), id, now) :: id in entries;
    }

    method Expire(now: int)
      modifies this`entries
      ensures State() == ExpireLeases(old(State()), now)
    {
      hide GivenUp;
      ghost var before := entries;
      var exhausted := ExhaustedRows(now);
      for i := 0 to |exhausted|
        invariant entries.Keys == before.Keys
        invariant forall id | id in entries :: entries[id] == if id in exhausted[..i] then GivenUp(before[id]) else before[id]
      {
        hide Exhausted;
        var id := exhausted[i];
        if id !in exhausted[..i] {
          entries := entries[id := GivenUp(entries[id])];
        }
      }
      assert exhausted[..|exhausted|] == exhausted;
      entries := map id | id in entries :: Restored(entries[id], now);
      forall id | id in before ensures entries[id] == ExpiredEntry(before[id], now) {
        GivenUpIsOver(before[id], now);
      }
    }

    /** The loop over the candidate rows: deny what can no longer run until one can be leased. */
    method PickRow(candidates: seq<Id>, now: int, seconds: int, token: Id) returns (r: Option<(Id, RequestStatus)>)
      requires Inv(State()) && AllCandidates(State(), candidates, now)
      modifies this`entries
      ensures match PickRequest(old(State()), candidates, now, seconds, token)
              case Aborted => false
              case Committed(l, None) => r == None && State() == l
              case Committed(l, Some(id)) => State() == l && HoldsRequest(l, id, token) && r == Some((id, Unleased(l.entries[id])))
    {
      assert forall j | 0 <= j < |candidates| :: candidates[j] in entries by {
        assert forall j | 0 <= j < |candidates| :: Candidate(State(), candidates[j], now);
      }
      hide Candidate;
      hide Inv;
      ghost var before := State();
      for i := 0 to |candidates|
        invariant relations == before.relations && threads == before.threads && entries.Keys == before.entries.Keys
        invariant forall j | i <= j < |candidates| :: candidates[j] in entries && entries[candidates[j]] == before.entries[candidates[j]]
        invariant PickRequest(State(), candidates[i..], now, seconds, token) == PickRequest(before, candidates, now, seconds, token)
      {
        var id := candidates[i];
        assert candidates[i..][0] == id && candidates[i..][1..] == candidates[i + 1..];
        CandidateWaits(before, id, now);
        var e := entries[id];
        if !RelationActive(State(), e.request.relation) || !ThreadLive(State(), e.request.thread, now) {
          entries := entries[id := e.(status := Denied)];
        } else {
          entries := entries[id := LeasedEntry(e, token, now, seconds, threads[e.request.thread].expires)];
          return Some((id, e.status));
        }
      }
      return None;
    }

    /** `claim_candidates`: the row it leases comes with the status it had before. */
    method ClaimNext(now: int, seconds: int, token: Id) returns (r: Result<Option<(Id, RequestStatus)>>, ghost rows: seq<Id>)
      requires Inv(State())
      modifies this`entries
      ensures match ClaimCandidates(old(State()), rows, now, seconds, token)
              case Aborted => r == Raised && State() == old(State())
              case Committed(l, None) => r == Ok(None) && State() == l
              case Committed(l, Some(id)) => State() == l && HoldsRequest(l, id, token) && r == Ok(Some((id, Unleased(l.entries[id]))))
      ensures r.Raised? <==> !(1 <= seconds <= 3600)
      ensures r.Ok? ==> ListsCandidates(ExpireLeases(old(State()), now), rows, now)
    {
      rows := [];
      if !(1 <= seconds <= 3600) {
        return Raised, rows;
      }
      hide AllCandidates;
      hide Inv;
      hide ExpireLeases;
      hide PickRequest;
      ExpireKeeps(State(), now);
      Expire(now);
      var candidates := CandidateRows(now);
      var picked := PickRow(candidates, now, seconds, token);
      return Ok(picked), candidates;
    }

    method DenyLease(id: Id, token: Id) returns (denied: bool)
      modifies this`entries
      ensures Outcome(old(State()), DenyClaim(old(State()), id, token), State(), Ok(denied))
    {
      if !HoldsRequest(State(), id, token) {
        return false;
      }
      entries := entries[id := entries[id].(status := Denied, token := None, until := None)];
      return true;
    }

    method DeferLease(id: Id, token: Id, now: int) returns (r: Result<bool>)
      modifies this`entries
      ensures Outcome(old(State()), Defer(old(State()), id, token, now), State(), r)
    {
      hide DeferSeconds;
      if !HoldsRequest(State(), id, token) || !LeaseLive(entries[id], now) {
        return Ok(false);
      }
      var e := entries[id];
      if e.attempts >= MAX_LEASES {
        if e.response.Some? {
          return Raised;
        }
        entries := entries[id := GivenUp(e)];
        return Ok(false);
      }
      var delay := DeferSeconds(e.attempts) * MICROS;
      entries := entries[id := e.(status := Unleased(e), token := None, until := None, availableAt := now + delay)];
      return Ok(true);
    }

    method Beat(id: Id, token: Id, revisions: Option<(nat, map<Owner, nat>)>, now: int, seconds: int) returns (r: Result<bool>)
      modifies this`entries
      ensures Outcome(old(State()), Heartbeat(old(State()), id, token, revisions, now, seconds), State(), r)
    {
      hide SamePermissions;
      if !(1 <= seconds <= 3600) {
        return Raised;
      }
      if !LeaseStands(State(), id, token, now) || (revisions.Some? && !SamePermissions(State(), id, revisions.value.0, revisions.value.1, now)) {
        return Ok(false);
      }
      entries := entries[id := entries[id].(until := Some(now + Earlier(seconds, MAX_LEASE_SECONDS) * MICROS))];
      return Ok(true);
    }

    method FinishLease(owner: Owner, id: Id, token: Id, frames: seq<string>, relationRevision: nat, grantRevisions: map<Owner, nat>, failed: bool, now: int) returns (r: Result<bool>)
      modifies this`entries
      ensures Outcome(old(State()), Finish(old(State()), owner, id, token, frames, relationRevision, grantRevisions, failed, now), State(), r)
    {
      hide SamePermissions;
      hide ValidResponse;
      if !ValidResponse(frames) {
        return Raised;
      }
      if !LeaseStands(State(), id, token, now) || entries[id].request.recipient != owner || !SamePermissions(State(), id, relationRevision, grantRevisions, now) {
        return Ok(false);
      }
      if entries[id].response.Some? {
        return Raised;
      }
      entries := entries[id := FinishedEntry(entries[id], frames, failed)];
      return Ok(true);
    }

    // ----- Notices -----

    /** `claim_notice`: suppress what can no longer be asked until one notice can be leased. */
    method ClaimNoticeRow(rows: seq<Id>, now: int, seconds: int, token: Id) returns (r: Result<Option<Id>>)
      modifies this
      ensures Outcome(old(State()), ClaimNotice(old(State()), rows, now, seconds, token), State(), r)
    {
      var saved := State();
      if !(1 <= seconds <= 3600) {
        return Raised;
      }
      var until := now + seconds * MICROS;
      entries := map e | e in entries :: if entries[e].notice.Some? then entries[e].(notice := Some(RecoveredNotice(entries[e].notice.value, now))) else entries[e];
      ghost var before := State();
      assert before == RecoverNotices(saved, now);
      hide RecoverNotices;
      for i := 0 to |rows|
        invariant PickNotice(State(), rows[i..], now, until, token) == PickNotice(before, rows, now, until, token)
      {
        hide HasHandle;
        var id := rows[i];
        assert rows[i..][0] == id && rows[i..][1..] == rows[i + 1..];
        if !NoticeReady(State(), id, now) {
          Rollback(saved);
          return Raised;
        }
        var e := entries[id];
        var n := e.notice.value;
        if !ConfirmationOpen(e) || e.confirmation.value.expires <= now || !RelationActive(State(), e.request.relation) || !HasHandle(State(), e.request.sender) {
          entries := entries[id := e.(notice := Some(SuppressedNotice(n)))];
        } else {
          entries := entries[id := e.(notice := Some(n.(status := NoticeLeased, token := Some(token), until := Some(until))))];
          return Ok(Some(id));
        }
      }
      return Ok(None);
    }

    method Begin(id: Id, token: Id, now: int) returns (begun: bool)
      modifies this`entries
      ensures Outcome(old(State()), BeginNotice(old(State()), id, token, now), State(), Ok(begun))
    {
      if !HoldsNotice(State(), id, token, NoticeLeased, now) {
        return false;
      }
      entries := entries[id := entries[id].(notice := Some(entries[id].notice.value.(status := Attempting)))];
      return true;
    }

    method Conclude(id: Id, token: Id, outcome: NoticeStatus, now: int) returns (r: Result<bool>)
      modifies this`entries
      ensures Outcome(old(State()), CompleteNotice(old(State()), id, token, outcome, now), State(), r)
    {
      if outcome == NoticeLeased || outcome == Attempting {
        return Raised;
      }
      if !HoldsNotice(State(), id, token, if outcome == NoticePending then NoticeLeased else Attempting, now) {
        return Ok(false);
      }
      entries := entries[id := entries[id].(notice := Some(Notice(outcome, None, None, if outcome == NoticePending then now + 60 * MICROS else now)))];
      return Ok(true);
    }
  }

  /** The second update of a claim: take back an expired lease. */
  function Restored(e: Entry, now: int): Entry {
    if e.status == Leased && e.until.Some? && e.until.value <= now && e.attempts < MAX_LEASES then e.(status := Unleased(e), token := None, until := None) else e
  }

  lemma GivenUpIsOver(e: Entry, now: int)
    ensures ExpiredEntry(e, now) == Restored(if Exhausted(e, now) then GivenUp(e) else e, now)
  {
  }

  /** A row that waits to be leased is authorized exactly when its confirmation was given. */
  lemma CandidateWaits(l: Ledger, id: Id, now: int)
    requires Inv(l) && Candidate(l, id, now)
    ensures l.entries[id].status == Pending || l.entries[id].status == Authorized
    ensures Unleased(l.entries[id]) == l.entries[id].status
  {
    EntryIsOk(l, id);
    hide Inv;
  }
}
