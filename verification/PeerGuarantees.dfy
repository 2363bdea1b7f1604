/** What the peer exchange guarantees over whole histories. */
module PeerGuarantees {
  import opened Wrappers
  import opened PeerPolicy
  import opened PeerLedger
  import opened PeerInvariant
  import opened PeerHistory

  // ----- Permissions never return to an earlier revision with other contents -----

  ghost predicate SameRevisions(l: Ledger, l': Ledger, relation: Id) {
    && relation in l.relations && relation in l'.relations
    && l'.relations[relation].revision == l.relations[relation].revision
    && GrantRevisions(l', relation) == GrantRevisions(l, relation)
  }

  ghost predicate SameContents(l: Ledger, l': Ledger, relation: Id) {
    RelationOf(l', relation) == RelationOf(l, relation) && GrantsOf(l', relation) == GrantsOf(l, relation)
  }

  lemma RevisionsByGrantor(l: Ledger, relation: Id, o: Owner)
    ensures o in GrantRevisions(l, relation) <==> GrantKey(relation, o) in l.grants
    ensures o in GrantsOf(l, relation) <==> GrantKey(relation, o) in l.grants
    ensures GrantKey(relation, o) in l.grants ==>
      GrantsOf(l, relation)[o] == l.grants[GrantKey(relation, o)] && GrantRevisions(l, relation)[o] == l.grants[GrantKey(relation, o)].revision
  {
    if GrantKey(relation, o) in l.grants {
      assert GrantKey(relation, o).grantor == o;
    }
  }

  /** Equal revisions mean equal contents, however much happened in between, owner deletion included. */
  lemma EqualRevisionsEqualContents(l: Ledger, l': Ledger, relation: Id)
    requires Evolves(l, l') && SameRevisions(l, l', relation)
    ensures SameContents(l, l', relation)
  {
    assert RelationStep(l.relations[relation], l'.relations[relation]);
    forall o ensures GrantKey(relation, o) in l.grants <==> GrantKey(relation, o) in l'.grants
             ensures GrantKey(relation, o) in l.grants ==> l'.grants[GrantKey(relation, o)] == l.grants[GrantKey(relation, o)]
    {
      RevisionsByGrantor(l, relation, o);
      RevisionsByGrantor(l', relation, o);
      assert GrantStep(l, l', GrantKey(relation, o));
    }
    hide GrantRevisions;
    assert GrantsOf(l', relation) == GrantsOf(l, relation) by {
      forall o ensures (o in GrantsOf(l', relation) <==> o in GrantsOf(l, relation)) && (o in GrantsOf(l, relation) ==> GrantsOf(l', relation)[o] == GrantsOf(l, relation)[o]) {
        RevisionsByGrantor(l, relation, o);
        RevisionsByGrantor(l', relation, o);
      }
    }
  }

  /** Permission fences have no gap: if the revisions recorded at one point are found again at a later one, the
      relationship and all its grants are exactly what they were. */
  lemma FencesHaveNoGap(l: Ledger, events: seq<Event>, relation: Id)
    requires Inv(l) && SameRevisions(l, Play(l, events), relation)
    ensures SameContents(l, Play(l, events), relation)
  {
    EqualRevisionsEqualContents(l, Play(l, events), relation);
    hide Play;
    hide Inv;
  }

  /** A response is only accepted under the very permissions the claim was made under, and those allow it now. */
  lemma FinishedUnderClaimedPermissions(l: Ledger, events: seq<Event>, owner: Owner, id: Id, token: Id, frames: seq<string>, failed: bool, now: int)
    requires Inv(l) && id in l.entries && l.entries[id].request.relation in l.relations
    requires var r := l.entries[id].request.relation;
      Finish(Play(l, events), owner, id, token, frames, l.relations[r].revision, GrantRevisions(l, r), failed, now) == Committed(Apply(Play(l, events), Finishing(owner, id, token, frames, l.relations[r].revision, GrantRevisions(l, r), failed, now)), true)
    ensures var l' := Play(l, events); var r := l.entries[id].request;
      && l'.entries[id].request == r && SameContents(l, l', r.relation) && RelationActive(l, r.relation)
      && DecideNow(l', r, Leased, now) == Allow && LeaseStands(l', id, token, now) && r.recipient == owner
      && (forall before | before <= now :: DecideNow(l, r, Leased, before) == Allow)
  {
    var l' := Play(l, events);
    var r := l.entries[id].request;
    assert EntryStep(l.entries[id], l'.entries[id]);
    hide Play;
    hide Inv;
    hide EntryStep;
    hide ValidResponse;
    assert LeaseStands(l', id, token, now) && SamePermissions(l', id, l.relations[r.relation].revision, GrantRevisions(l, r.relation), now);
    hide Finish;
    EqualRevisionsEqualContents(l, l', r.relation);
    forall before | before <= now ensures DecideNow(l, r, Leased, before) == Allow {
      AllowedEarlier(r.relation, RelationOf(l, r.relation), GrantsOf(l, r.relation), r, Leased, now, before);
    }
  }

  /** The confirmation of a request records the permissions of this very state. */
  ghost predicate RecordsPermissions(l: Ledger, id: Id) {
    && id in l.entries && l.entries[id].confirmation.Some? && l.entries[id].request.relation in l.relations
    && var c, r := l.entries[id].confirmation.value, l.entries[id].request;
    && c.owner == r.recipient && c.relationRevision == l.relations[r.relation].revision && c.grantRevisions == GrantRevisions(l, r.relation)
  }

  lemma SubmissionRecordsPermissions(l: Ledger, id: Id, r: Request, now: int)
    ensures var s := Submit(l, id, r, true, now);
      s.Committed? && !s.value ==> RecordsPermissions(s.ledger, id) && s.ledger.entries[id].confirmation.value.expires == now + CONFIRMATION_LIFETIME
  {
    hide RequestsSince;
    var s := Submit(l, id, r, true, now);
    if s.Committed? && !s.value {
      assert GrantsOf(s.ledger, r.relation) == GrantsOf(l, r.relation);
    }
  }

  /** An approval takes effect only for the recipient, in time, and under the very permissions that were recorded
      when the request was submitted; and those allow the request now. */
  lemma ApprovalIsForRecordedPermissions(l: Ledger, id: Id, events: seq<Event>, owner: Owner, now: int)
    requires Inv(l) && RecordsPermissions(l, id)
    ensures var l' := Play(l, events); var r := l.entries[id].request;
      DecideConfirmation(l', owner, id, true, now).value == Granted ==>
        && owner == r.recipient && now < l.entries[id].confirmation.value.expires
        && SameContents(l, l', r.relation) && DecideNow(l', r, Authorized, now) == Allow
  {
    var l' := Play(l, events);
    assert Evolves(l, l') && EntryStep(l.entries[id], l'.entries[id]);
    hide Inv;
    hide Play;
    ApprovalFence(l, l', id, owner, now);
    hide DecideConfirmation;
    hide DecideNow;
    hide SameContents;
    hide Evolves;
    hide EntryStep;
  }

  lemma ApprovalFence(l: Ledger, l': Ledger, id: Id, owner: Owner, now: int)
    requires RecordsPermissions(l, id) && Evolves(l, l') && id in l'.entries && EntryStep(l.entries[id], l'.entries[id])
    ensures var r := l.entries[id].request;
      DecideConfirmation(l', owner, id, true, now).value == Granted ==>
        && owner == r.recipient && now < l.entries[id].confirmation.value.expires
        && SameContents(l, l', r.relation) && DecideNow(l', r, Authorized, now) == Allow
  {
    hide GrantRevisions;
    hide DecideNow;
    if DecideConfirmation(l', owner, id, true, now).value == Granted {
      assert StillValid(l', l'.entries[id], now);
      EqualRevisionsEqualContents(l, l', l.entries[id].request.relation);
    }
    hide SameContents;
    hide Evolves;
  }

  // ----- Requests -----

  /** Whatever is called later, a completed, failed or denied request keeps its status and its response. */
  lemma EndedRequestsStayEnded(l: Ledger, events: seq<Event>, id: Id)
    requires Inv(l) && id in l.entries && Terminal(l.entries[id].status)
    ensures var l' := Play(l, events);
      id in l'.entries && l'.entries[id].status == l.entries[id].status && l'.entries[id].response == l.entries[id].response
  {
    assert EntryStep(l.entries[id], Play(l, events).entries[id]);
    hide Play;
    hide Inv;
  }

  /** In every reachable state: a request that had to be confirmed is leased, answered or failed only if it was;
      a response exists exactly for completed and failed requests; and no request was leased more than three times. */
  lemma RequestsAreSound(events: seq<Event>, id: Id)
    ensures Inv(EMPTY)
    ensures var l := Play(EMPTY, events);
      id in l.entries ==> var e := l.entries[id];
        && (e.confirmation.Some? && (e.status == Leased || e.status == Completed || e.status == Failed) ==> e.confirmation.value.status == Confirmed)
        && (e.response.Some? <==> e.status == Completed || e.status == Failed)
        && e.attempts <= 3
  {
    EmptyIsSound();
    var l := Play(EMPTY, events);
    if id in l.entries {
      EntryIsOk(l, id);
    }
    hide Play;
    hide Inv;
  }

  lemma EmptyIsSound()
    ensures Inv(EMPTY)
  {
    forall relation, start: int ensures |Window(EMPTY, relation, start)| <= MAX_HOURLY_REQUESTS {
      assert Window(EMPTY, relation, start) == {};
    }
  }

  /** An expired or deferred lease gives back exactly the status the request had before it, whatever happened while it was held. */
  lemma LeaseGivesBackItsStatus(l: Ledger, events: seq<Event>, id: Id, token: Id, now: int, seconds: int, threadEnd: int)
    requires Inv(l) && id in l.entries && (l.entries[id].status == Pending || l.entries[id].status == Authorized)
    requires Inv(SetEntry(l, id, LeasedEntry(l.entries[id], token, now, seconds, threadEnd)))
    ensures Unleased(Play(SetEntry(l, id, LeasedEntry(l.entries[id], token, now, seconds, threadEnd)), events).entries[id]) == l.entries[id].status
  {
    var l1 := SetEntry(l, id, LeasedEntry(l.entries[id], token, now, seconds, threadEnd));
    EntryIsOk(l, id);
    assert EntryStep(l1.entries[id], Play(l1, events).entries[id]);
    hide Play;
    hide Inv;
  }

  function Changed(a: Entry, b: Entry): nat {
    if a.status != b.status || a.attempts != b.attempts then 1 else 0
  }

  /** How often the status of a request, or its number of leases, changes along a history. */
  ghost function Changes(l: Ledger, events: seq<Event>, id: Id): nat
    requires Inv(l) && id in l.entries
    decreases |events|
  {
    if events == [] then 0
    else
      ApplyKeeps(l, events[0]);
      var l1 := Apply(l, events[0]);
      Changes(l1, events[1..], id) + Changed(l.entries[id], l1.entries[id])
  }

  lemma ChangeCosts(a: Entry, b: Entry)
    requires EntryStep(a, b)
    ensures Changed(a, b) + Potential(b) <= Potential(a)
  {
  }

  lemma PotentialBound(closed: bool, e: Entry)
    requires EntryOk(closed, e)
    ensures Potential(e) <= 7 && e.attempts <= 3
  {
  }

  lemma {:induction false} ChangesCost(l: Ledger, events: seq<Event>, id: Id)
    requires Inv(l) && id in l.entries
    ensures id in Play(l, events).entries && Changes(l, events, id) + Potential(Play(l, events).entries[id]) <= Potential(l.entries[id])
    decreases |events|
  {
    if events != [] {
      ApplyKeeps(l, events[0]);
      var l1 := Apply(l, events[0]);
      ChangeCosts(l.entries[id], l1.entries[id]);
      hide EntryStep;
      hide Inv;
      hide Apply;
      hide Potential;
      ChangesCost(l1, events[1..], id);
      hide Moves;
    }
  }

  /** Every request settles: its status changes at most seven times in all, and it is leased at most three times. */
  lemma RequestsSettle(l: Ledger, events: seq<Event>, id: Id)
    requires Inv(l) && id in l.entries
    ensures Changes(l, events, id) <= 7
    ensures id in Play(l, events).entries && Play(l, events).entries[id].attempts <= 3
  {
    ChangesCost(l, events, id);
    EntryIsOk(l, id);
    PotentialBound(RelationClosed(l, l.entries[id].request.relation), l.entries[id]);
    EntryIsOk(Play(l, events), id);
    PotentialBound(RelationClosed(Play(l, events), Play(l, events).entries[id].request.relation), Play(l, events).entries[id]);
    hide *;
  }

  // ----- Threads and rate -----

  /** In every reachable state a thread's requests are numbered from one without gaps and without repetition, at most
      four of them; at most one of them is leased, and whatever was ever leased comes after finished requests only. */
  lemma ThreadsAreQueues(events: seq<Event>, a: Id, b: Id)
    ensures Inv(EMPTY)
    ensures var l := Play(EMPTY, events);
      && (a in l.entries ==>
            && 1 <= l.entries[a].request.sequence <= 4
            && (forall k: nat | 1 <= k <= l.entries[a].request.sequence :: Filled(l, l.entries[a].request.thread, k)))
      && (a in l.entries && b in l.entries && l.entries[a].request.thread == l.entries[b].request.thread ==>
            && (l.entries[a].request.sequence == l.entries[b].request.sequence ==> a == b)
            && (l.entries[a].status == Leased && l.entries[b].status == Leased ==> a == b)
            && (l.entries[b].attempts > 0 && l.entries[a].request.sequence < l.entries[b].request.sequence ==> Terminal(l.entries[a].status)))
  {
    EmptyIsSound();
    var l := Play(EMPTY, events);
    if a in l.entries && b in l.entries && l.entries[a].request.thread == l.entries[b].request.thread {
      EntryIsOk(l, a);
      EntryIsOk(l, b);
      assert Numbered(l, b, l.entries[b].request.thread, l.entries[b].request.sequence);
      assert Numbered(l, a, l.entries[a].request.thread, l.entries[a].request.sequence);
      assert l.entries[a].attempts > 0 ==> EarlierDone(l, a);
      assert l.entries[b].attempts > 0 ==> EarlierDone(l, b);
    }
    hide Play;
    hide Rate;
    hide Entries;
  }

  /** In every reachable state any closed window of one hour holds at most ten requests of a relationship,
      whether or not the clock ever went back. */
  lemma RateIsBounded(events: seq<Event>, relation: Id, start: int)
    ensures Inv(EMPTY)
    ensures |Window(Play(EMPTY, events), relation, start)| <= 10
  {
    EmptyIsSound();
    hide Play;
  }

  // ----- Notices -----

  predicate Begun(l: Ledger, id: Id) {
    id in l.entries && l.entries[id].notice.Some? && (l.entries[id].notice.value.status == Attempting || NoticeOver(l.entries[id].notice.value.status))
  }

  lemma BeginningBegins(l: Ledger, id: Id, token: Id, now: int)
    ensures var s := BeginNotice(l, id, token, now); s.Committed? && (s.value <==> HoldsNotice(l, id, token, NoticeLeased, now)) && (s.value ==> Begun(s.ledger, id))
  {
  }

  lemma BegunStays(l: Ledger, l': Ledger, id: Id)
    requires Moves(l, l') && Begun(l, id)
    ensures Begun(l', id)
  {
    assert EntryStep(l.entries[id], l'.entries[id]);
    hide Evolves;
    hide Potential;
    hide ConfirmationStep;
  }

  /** A notice is attempted at most once: after an attempt has begun no later one can begin, whatever happens in between. */
  lemma NoticesAreAttemptedOnce(l: Ledger, events: seq<Event>, id: Id, token: Id, now: int)
    requires Inv(l) && Begun(l, id)
    ensures var s := BeginNotice(Play(l, events), id, token, now); s.Committed? && s.value == false
  {
    hide *;
    var l' := Play(l, events);
    BegunStays(l, l', id);
    BeginningBegins(l', id, token, now);
    BegunIsNotLeased(l', id, token, now);
  }

  lemma BegunIsNotLeased(l: Ledger, id: Id, token: Id, now: int)
    requires Begun(l, id)
    ensures !HoldsNotice(l, id, token, NoticeLeased, now)
  {
  }
}
