/** What each store call of the peer exchange accepts and the rows it leaves: said of stored columns. */
module PeerEffects {
  import opened Wrappers
  import opened PeerPolicy
  import opened PeerLedger
  import opened PeerInvariant
  import opened PeerHistory
  import opened PeerGuarantees

  // ----- Permissions as they are stored -----

  /** The stored rows let this request through: an active relationship of just these two owners, an acceptable action,
      live grants of both, the sender's to speak and the recipient's to be answered for, and a confirmation where one is
      needed. */
  predicate MayPass(l: Ledger, r: Request, confirmed: bool, now: int) {
    var speaks, answers := GrantKey(r.relation, r.sender), GrantKey(r.relation, r.recipient);
    && r.relation in l.relations && l.relations[r.relation].status.Active? && Parties(l.relations[r.relation], r.sender, r.recipient)
    && Acceptable(r.action)
    && speaks in l.grants && l.grants[speaks].communicate && Live(l.grants[speaks], now)
    && answers in l.grants && l.grants[answers].autoReply && Live(l.grants[answers], now)
    && (confirmed || !(r.action.Commitment? || r.kind.Sensitive? || (r.kind.Availability? && !l.grants[answers].shareAvailability)))
  }

  /** The policy over the stored rows: it allows what may pass, and asks where only a confirmation is missing. */
  lemma DecideNowExactly(l: Ledger, r: Request, status: RequestStatus, now: int)
    ensures var confirmed := status.Authorized? || status.Leased?;
      && (DecideNow(l, r, status, now).Allow? <==> MayPass(l, r, confirmed, now))
      && (DecideNow(l, r, status, now).Confirm? <==> !confirmed && !MayPass(l, r, false, now) && MayPass(l, r, true, now))
  {
    DecisionMeans(r.relation, RelationOf(l, r.relation), GrantsOf(l, r.relation), r, status, now);
    RevisionsByGrantor(l, r.relation, r.sender);
    RevisionsByGrantor(l, r.relation, r.recipient);
    hide Decide;
    hide GrantsOf;
    hide GrantRevisions;
    hide Parties;
    hide Live;
  }

  /** The grants of the relationship have exactly these revisions. */
  ghost predicate HasRevisions(l: Ledger, relation: Id, revisions: map<Owner, nat>) {
    forall o :: (o in revisions <==> GrantKey(relation, o) in l.grants) && (o in revisions ==> l.grants[GrantKey(relation, o)].revision == revisions[o])
  }

  lemma RevisionsExactly(l: Ledger, relation: Id, revisions: map<Owner, nat>)
    ensures GrantRevisions(l, relation) == revisions <==> HasRevisions(l, relation, revisions)
  {
    forall o ensures o in GrantRevisions(l, relation) <==> GrantKey(relation, o) in l.grants
             ensures GrantKey(relation, o) in l.grants ==> GrantRevisions(l, relation)[o] == l.grants[GrantKey(relation, o)].revision
    {
      RevisionsByGrantor(l, relation, o);
    }
    hide GrantRevisions;
  }

  // ----- Confirmations -----

  /** A notice that was not shown yet is suppressed. */
  function Quieted(n: Option<Notice>, shown: bool): Option<Notice> {
    if n.Some? && (n.value.status.NoticePending? || n.value.status.NoticeLeased? || (shown && n.value.status.Attempting?))
    then Some(Notice(NoticeSuppressed, None, None, n.value.availableAt)) else n
  }

  /** The recipient says yes, in time, and the permissions are those that were recorded and let the request pass. */
  ghost predicate Approved(l: Ledger, e: Entry, approve: bool, now: int)
    requires e.confirmation.Some?
  {
    var c := e.confirmation.value;
    && approve && now < c.expires && c.text == e.request.text
    && e.request.relation in l.relations && l.relations[e.request.relation].revision == c.relationRevision
    && HasRevisions(l, e.request.relation, c.grantRevisions) && MayPass(l, e.request, true, now)
  }

  /** Deciding a confirmation: a missing or foreign one and one that was decided before change nothing. An open one is
      decided for good, and the request is authorized exactly when it was approved; otherwise it is denied, as expired
      when late and as cancelled when in time. */
  lemma DecisionExactly(l: Ledger, owner: Owner, id: Id, approve: bool, now: int)
    ensures var s := DecideConfirmation(l, owner, id, approve, now);
      if id !in l.entries || l.entries[id].confirmation.None? || l.entries[id].confirmation.value.owner != owner then s == Committed(l, Missing)
      else
        var e := l.entries[id];
        var c := e.confirmation.value;
        if !c.status.Open? then s == Committed(l, Replayed)
        else
          var late := c.expires <= now;
          var approved := Approved(l, e, approve, now);
          var decided := c.(status := if approved then Confirmed else if late then Expired else Cancelled);
          s == Committed(
            l.(entries := l.entries[id := e.(status := if approved then Authorized else Denied, confirmation := Some(decided), notice := Quieted(e.notice, false))]),
            if approved then Granted else if late then Late else Refused)
  {
    if id in l.entries && l.entries[id].confirmation.Some? {
      var e := l.entries[id];
      RevisionsExactly(l, e.request.relation, e.confirmation.value.grantRevisions);
      DecideNowExactly(l, e.request, Authorized, now);
      hide GrantRevisions;
      hide DecideNow;
      hide HasRevisions;
      hide MayPass;
      PassesThroughActive(l, e.request, now);
    }
  }

  lemma PassesThroughActive(l: Ledger, r: Request, now: int)
    ensures MayPass(l, r, true, now) ==> RelationActive(l, r.relation)
  {
  }

  /** The row of a request whose open confirmation is withdrawn. */
  function Withdrawn(e: Entry): Entry {
    if e.confirmation.Some? && e.confirmation.value.status.Open?
    then e.(confirmation := Some(e.confirmation.value.(status := Cancelled)), notice := Quieted(e.notice, true)) else e
  }

  /** A newer turn withdraws an open confirmation, and with it a request that waited for it; a request that is not
      finished can also be denied outright. */
  lemma SupersedingExactly(l: Ledger, id: Id)
    ensures CancelSuperseded(l, id) ==
      if id in l.entries && l.entries[id].confirmation.Some? && l.entries[id].confirmation.value.status.Open?
      then Committed(l.(entries := l.entries[id := if l.entries[id].status.ConfirmationPending? then Withdrawn(l.entries[id]).(status := Denied) else Withdrawn(l.entries[id])]), true)
      else Committed(l, false)
    ensures DenySuperseded(l, id) ==
      if id !in l.entries then Committed(l, false)
      else if l.entries[id].status in [Completed, Failed, Denied] then Committed(l.(entries := l.entries[id := Withdrawn(l.entries[id])]), false)
      else Committed(l.(entries := l.entries[id := Withdrawn(l.entries[id]).(status := Denied, token := None, until := None)]), true)
  {
  }

  // ----- Leases -----

  /** The lease with this token is held and has not run out, and neither has the request's deadline nor its thread; its
      relationship is active. */
  predicate HasLease(l: Ledger, id: Id, token: Id, now: int) {
    && id in l.entries && var e := l.entries[id];
    && e.status.Leased? && e.token == Some(token) && e.until.Some? && now < e.until.value && e.deadline.Some? && now < e.deadline.value
    && e.request.thread in l.threads && now < l.threads[e.request.thread].expires
    && e.request.relation in l.relations && l.relations[e.request.relation].status.Active?
  }

  /** The permissions are those with these revisions, and they let the leased request pass. */
  ghost predicate StillPermitted(l: Ledger, id: Id, relationRevision: nat, grantRevisions: map<Owner, nat>, now: int) {
    && id in l.entries && var r := l.entries[id].request;
    && r.relation in l.relations && l.relations[r.relation].revision == relationRevision && HasRevisions(l, r.relation, grantRevisions)
    && MayPass(l, r, l.entries[id].status.Authorized? || l.entries[id].status.Leased?, now)
  }

  lemma PermissionFenceExactly(l: Ledger, id: Id, relationRevision: nat, grantRevisions: map<Owner, nat>, now: int)
    ensures SamePermissions(l, id, relationRevision, grantRevisions, now) <==> StillPermitted(l, id, relationRevision, grantRevisions, now)
  {
    if id in l.entries {
      RevisionsExactly(l, l.entries[id].request.relation, grantRevisions);
      DecideNowExactly(l, l.entries[id].request, l.entries[id].status, now);
    }
    hide GrantRevisions;
    hide DecideNow;
    hide HasRevisions;
    hide MayPass;
  }

  predicate Deliverable(frames: seq<string>) {
    && 1 <= |frames| <= 3 && (forall i | 0 <= i < |frames| :: frames[i] != "")
    && (|frames| == 1 ==> |frames[0]| <= 2000)
    && (|frames| == 2 ==> |frames[0]| + |frames[1]| <= 2000)
    && (|frames| == 3 ==> |frames[0]| + |frames[1]| + |frames[2]| <= 2000)
  }

  lemma DeliverableIsValid(frames: seq<string>)
    ensures ValidResponse(frames) <==> Deliverable(frames)
  {
    if 1 <= |frames| <= 3 {
      assert TotalLength(frames[1..]) == if |frames| == 1 then 0 else |frames[1]| + TotalLength(frames[1..][1..]);
      if |frames| == 3 {
        assert frames[1..][1..] == [frames[2]];
        assert TotalLength([frames[2]]) == |frames[2]|;
      } else if |frames| == 2 {
        assert frames[1..][1..] == [];
      }
    }
  }

  /** An answer: undeliverable frames raise; without the lease, by anyone but the recipient, or under other permissions it
      changes nothing; a second one raises; otherwise the request is completed or failed with exactly these frames. */
  lemma AnswerExactly(l: Ledger, owner: Owner, id: Id, token: Id, frames: seq<string>, relationRevision: nat, grantRevisions: map<Owner, nat>, failed: bool, now: int)
    ensures var s := Finish(l, owner, id, token, frames, relationRevision, grantRevisions, failed, now);
      if !Deliverable(frames) then s.Aborted?
      else if !HasLease(l, id, token, now) || l.entries[id].request.recipient != owner || !StillPermitted(l, id, relationRevision, grantRevisions, now)
      then s == Committed(l, false)
      else if l.entries[id].response.Some? then s.Aborted?
      else
        var e := l.entries[id];
        s == Committed(l.(entries := l.entries[id :=
          e.(status := if failed then Failed else Completed, token := None, until := None, response := Some(Response(owner, frames, failed)))]), true)
  {
    DeliverableIsValid(frames);
    LeaseFenceExactly(l, id, token, now);
    PermissionFenceExactly(l, id, relationRevision, grantRevisions, now);
    hide Deliverable;
    hide ValidResponse;
    hide LeaseStands;
    hide HasLease;
    hide SamePermissions;
    hide StillPermitted;
    if HasLease(l, id, token, now) {
      assert id in l.entries by { LeasedIsStored(l, id, token, now); }
    }
  }

  lemma LeasedIsStored(l: Ledger, id: Id, token: Id, now: int)
    requires HasLease(l, id, token, now)
    ensures id in l.entries
  {
  }

  lemma LeaseFenceExactly(l: Ledger, id: Id, token: Id, now: int)
    ensures LeaseStands(l, id, token, now) <==> HasLease(l, id, token, now)
  {
  }

  /** A lease is extended by at most fifteen seconds from now, while it stands and, if asked, under the same permissions. */
  lemma HeartbeatExactly(l: Ledger, id: Id, token: Id, revisions: Option<(nat, map<Owner, nat>)>, now: int, seconds: int)
    ensures Heartbeat(l, id, token, revisions, now, seconds) ==
      if seconds < 1 || seconds > 3600 then Aborted
      else if HasLease(l, id, token, now) && (revisions.None? || StillPermitted(l, id, revisions.value.0, revisions.value.1, now))
      then Committed(l.(entries := l.entries[id := l.entries[id].(until := Some(now + (if seconds < 15 then seconds else 15) * 1_000_000))]), true)
      else Committed(l, false)
  {
    LeaseFenceExactly(l, id, token, now);
    if revisions.Some? {
      PermissionFenceExactly(l, id, revisions.value.0, revisions.value.1, now);
    }
    if HasLease(l, id, token, now) {
      LeasedIsStored(l, id, token, now);
    }
    hide LeaseStands;
    hide HasLease;
    hide SamePermissions;
    hide StillPermitted;
  }

  /** A claim that is denied by the policy ends the request. */
  lemma ClaimDenialExactly(l: Ledger, id: Id, token: Id)
    ensures DenyClaim(l, id, token) ==
      if id in l.entries && l.entries[id].status.Leased? && l.entries[id].token == Some(token)
      then Committed(l.(entries := l.entries[id := l.entries[id].(status := Denied, token := None, until := None)]), true)
      else Committed(l, false)
  {
  }

  /** The row of a request that is given up: failed, with an apology in the recipient's name. */
  function Apologized(e: Entry): Entry {
    e.(status := Failed, token := None, until := None,
       response := if e.response.Some? then e.response else Some(Response(e.request.recipient, ["unable to answer right now"], true)))
  }

  /** The status a request had before it was leased. */
  function Before(e: Entry): RequestStatus {
    if e.confirmation.Some? && e.confirmation.value.status.Confirmed? then Authorized else Pending
  }

  /** A request put off waits 2, then 4 seconds; after its third lease it is given up. */
  lemma DeferralExactly(l: Ledger, id: Id, token: Id, now: int)
    requires id in l.entries ==> 1 <= l.entries[id].attempts <= 3
    ensures Defer(l, id, token, now) ==
      if id !in l.entries || !l.entries[id].status.Leased? || l.entries[id].token != Some(token) || l.entries[id].until.None? || l.entries[id].until.value <= now
      then Committed(l, false)
      else
        var e := l.entries[id];
        if e.attempts < 3
        then Committed(l.(entries := l.entries[id := e.(status := Before(e), token := None, until := None, availableAt := now + (if e.attempts == 1 then 2 else 4) * 1_000_000)]), true)
        else if e.response.Some? then Aborted
        else Committed(l.(entries := l.entries[id := Apologized(e)]), false)
  {
    assert PowerOfTwo(1) == 2 && PowerOfTwo(2) == 4;
  }

  /** What a claim first makes of every request: given up once its deadline has passed, or its third lease has run out;
      taken back when another lease has run out. */
  function RowAfterExpiry(e: Entry, now: int): Entry {
    if e.status in [Pending, Authorized, Leased] && e.deadline.Some? && e.deadline.value <= now then Apologized(e)
    else if e.status.Leased? && e.until.Some? && e.until.value <= now
    then if e.attempts >= 3 then Apologized(e) else e.(status := Before(e), token := None, until := None)
    else e
  }

  lemma ExpiryExactly(l: Ledger, now: int)
    ensures var l' := ExpireLeases(l, now);
      && l' == l.(entries := l'.entries) && l'.entries.Keys == l.entries.Keys
      && forall id | id in l.entries :: l'.entries[id] == RowAfterExpiry(l.entries[id], now)
  {
    forall e ensures ExpiredEntry(e, now) == RowAfterExpiry(e, now) {
      RowExpires(e, now);
    }
    hide ExpiredEntry;
    hide RowAfterExpiry;
  }

  lemma RowExpires(e: Entry, now: int)
    ensures ExpiredEntry(e, now) == RowAfterExpiry(e, now)
  {
  }

  /** What the query of a claim lists: waiting requests whose time has come, leased less than three times, with
      nothing unfinished before them in their thread. */
  lemma CandidateExactly(l: Ledger, id: Id, now: int)
    ensures Candidate(l, id, now) <==>
      && id in l.entries && (l.entries[id].status.Pending? || l.entries[id].status.Authorized?)
      && l.entries[id].attempts < 3 && l.entries[id].availableAt <= now
      && forall p | p in l.entries && l.entries[p].request.thread == l.entries[id].request.thread && l.entries[p].request.sequence < l.entries[id].request.sequence ::
           l.entries[p].status in [Completed, Failed, Denied]
  {
  }

  /** Both the relationship and the thread of the request are still open. */
  predicate Reachable(l: Ledger, e: Entry, now: int) {
    && e.request.relation in l.relations && l.relations[e.request.relation].status.Active?
    && e.request.thread in l.threads && now < l.threads[e.request.thread].expires
  }

  /** The row of a request a claim leases: for fifteen seconds at most, and its first lease sets a deadline a minute on,
      or when its thread ends if that is sooner. */
  function LeasedRow(e: Entry, token: Id, now: int, seconds: int, threadEnd: int): Entry {
    var minute := now + 60_000_000;
    e.(status := Leased, token := Some(token), until := Some(now + (if seconds < 15 then seconds else 15) * 1_000_000), attempts := e.attempts + 1,
       deadline := if e.deadline.Some? then e.deadline else Some(if minute < threadEnd then minute else threadEnd))
  }

  ghost predicate Picks(l: Ledger, l': Ledger, rows: seq<Id>, i: nat, now: int, seconds: int, token: Id) {
    && i <= |rows| && l' == l.(entries := l'.entries) && l'.entries.Keys == l.entries.Keys
    && (forall k | 0 <= k < i :: rows[k] in l.entries && !Reachable(l, l.entries[rows[k]], now) && l'.entries[rows[k]] == l.entries[rows[k]].(status := Denied))
    && (forall id | id in l.entries && id !in rows[..i] && (i < |rows| ==> id != rows[i]) :: l'.entries[id] == l.entries[id])
    && (i < |rows| ==>
          && rows[i] in l.entries && Reachable(l, l.entries[rows[i]], now)
          && l'.entries[rows[i]] == LeasedRow(l.entries[rows[i]], token, now, seconds, l.threads[l.entries[rows[i]].request.thread].expires))
  }

  lemma {:induction false} PickExactly(l: Ledger, rows: seq<Id>, now: int, seconds: int, token: Id)
    requires forall i | 0 <= i < |rows| :: rows[i] in l.entries && (l.entries[rows[i]].status.Pending? || l.entries[rows[i]].status.Authorized?)
    requires forall i, j | 0 <= i < j < |rows| :: rows[i] != rows[j]
    ensures var s := PickRequest(l, rows, now, seconds, token);
      s.Committed? && exists i: nat :: Picks(l, s.ledger, rows, i, now, seconds, token) && s.value == if i < |rows| then Some(rows[i]) else None
    decreases |rows|
  {
    if rows == [] {
      assert Picks(l, l, rows, 0, now, seconds, token);
    } else if Reachable(l, l.entries[rows[0]], now) {
      PicksHere(l, rows, now, seconds, token);
      hide PickRequest;
      hide Picks;
    } else {
      var l1 := SetEntry(l, rows[0], l.entries[rows[0]].(status := Denied));
      PickSkips(l, rows, now, seconds, token);
      hide PickRequest;
      hide Reachable;
      PickExactly(l1, rows[1..], now, seconds, token);
      var s := PickRequest(l1, rows[1..], now, seconds, token);
      var i: nat :| Picks(l1, s.ledger, rows[1..], i, now, seconds, token) && s.value == if i < |rows[1..]| then Some(rows[1..][i]) else None;
      PicksOn(l, l1, s.ledger, rows, i, now, seconds, token);
      hide Picks;
    }
  }

  lemma PickSkips(l: Ledger, rows: seq<Id>, now: int, seconds: int, token: Id)
    requires rows != [] && rows[0] in l.entries && !Reachable(l, l.entries[rows[0]], now)
    requires l.entries[rows[0]].status.Pending? || l.entries[rows[0]].status.Authorized?
    ensures PickRequest(l, rows, now, seconds, token) == PickRequest(SetEntry(l, rows[0], l.entries[rows[0]].(status := Denied)), rows[1..], now, seconds, token)
  {
  }

  lemma PicksHere(l: Ledger, rows: seq<Id>, now: int, seconds: int, token: Id)
    requires rows != [] && rows[0] in l.entries && Reachable(l, l.entries[rows[0]], now)
    requires l.entries[rows[0]].status.Pending? || l.entries[rows[0]].status.Authorized?
    ensures var s := PickRequest(l, rows, now, seconds, token); s.Committed? && s.value == Some(rows[0]) && Picks(l, s.ledger, rows, 0, now, seconds, token)
  {
  }

  lemma PicksOn(l: Ledger, l1: Ledger, l': Ledger, rows: seq<Id>, i: nat, now: int, seconds: int, token: Id)
    requires rows != [] && rows[0] in l.entries && !Reachable(l, l.entries[rows[0]], now) && rows[0] !in rows[1..]
    requires l1 == SetEntry(l, rows[0], l.entries[rows[0]].(status := Denied)) && Picks(l1, l', rows[1..], i, now, seconds, token)
    ensures Picks(l, l', rows, i + 1, now, seconds, token)
  {
    assert forall id | id in l.entries && id != rows[0] :: l1.entries[id] == l.entries[id];
    assert forall k | 0 <= k < |rows| - 1 :: rows[1..][k] == rows[k + 1] && rows[k + 1] != rows[0];
    assert rows[..i + 1] == [rows[0]] + rows[1..][..i];
    hide LeasedRow;
  }

  /** A claim leases the first listed request whose relationship and thread are still open, and denies those listed before
      it; it finds none exactly when there is no such request. */
  lemma ClaimExactly(l: Ledger, rows: seq<Id>, now: int, seconds: int, token: Id)
    requires AllCandidates(ExpireLeases(l, now), rows, now)
    ensures var s := ClaimCandidates(l, rows, now, seconds, token);
      if seconds < 1 || seconds > 3600 then s.Aborted?
      else s.Committed? && exists i: nat :: Picks(ExpireLeases(l, now), s.ledger, rows, i, now, seconds, token) && s.value == if i < |rows| then Some(rows[i]) else None
  {
    hide ExpireLeases;
    hide PickRequest;
    hide Picks;
    hide EarlierDone;
    PickExactly(ExpireLeases(l, now), rows, now, seconds, token);
  }
}
