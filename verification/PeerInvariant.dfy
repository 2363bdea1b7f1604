/** What every reachable state of the peer tables satisfies, and how one state may follow another. */
module PeerInvariant {
  import opened Wrappers
  import opened PeerPolicy
  import opened PeerLedger

  // ----- One request -----

  /** How the confirmation of a request bounds its status. */
  ghost predicate ConfirmationFits(closed: bool, e: Entry) {
    if e.confirmation.None? then e.status != ConfirmationPending && e.status != Authorized
    else match e.confirmation.value.status
      case Open => e.status == ConfirmationPending || (e.status == Denied && closed)
      case Confirmed => e.status != ConfirmationPending && e.status != Pending
      case _ => e.status == Denied
  }

  /** A response exists exactly for a completed or failed request, and says which. */
  ghost predicate ResponseFits(e: Entry) {
    && (e.response.Some? <==> e.status == Completed || e.status == Failed)
    && (e.response.Some? ==> e.response.value.responder == e.request.recipient && (e.response.value.failed <==> e.status == Failed))
  }

  ghost predicate LeaseFits(e: Entry) {
    && e.attempts <= MAX_LEASES
    && (e.status == Pending || e.status == Authorized ==> e.attempts < MAX_LEASES)
    && (e.status == ConfirmationPending ==> e.attempts == 0)
    && (e.status == Leased ==> e.attempts > 0 && e.token.Some? && e.until.Some? && e.deadline.Some?)
  }

  /** Only an open confirmation has a notice still to be delivered. */
  ghost predicate NoticeFits(e: Entry) {
    && (e.notice.Some? <==> e.confirmation.Some?)
    && (e.notice.Some? && (e.notice.value.status == NoticePending || e.notice.value.status == NoticeLeased) ==> e.confirmation.value.status == Open)
  }

  ghost predicate EntryOk(closed: bool, e: Entry) {
    ConfirmationFits(closed, e) && ResponseFits(e) && LeaseFits(e) && NoticeFits(e)
  }

  // ----- The tables -----

  ghost predicate RequestRefs(l: Ledger, r: Request) {
    r.relation in l.relations && r.thread in l.threads && ThreadFits(l.threads[r.thread], r)
  }

  ghost predicate Refs(l: Ledger) {
    && (forall id | id in l.entries :: RequestRefs(l, l.entries[id].request))
    && (forall k | k in l.grants :: k.relation in l.relations)
  }

  predicate RelationClosed(l: Ledger, relation: Id) {
    relation in l.relations && Closed(l.relations[relation].status)
  }

  ghost predicate Entries(l: Ledger) {
    forall id | id in l.entries :: EntryOk(RelationClosed(l, l.entries[id].request.relation), l.entries[id])
  }

  predicate Numbered(l: Ledger, id: Id, thread: Id, sequence: nat) {
    id in l.entries && l.entries[id].request.thread == thread && l.entries[id].request.sequence == sequence
  }

  ghost predicate Filled(l: Ledger, thread: Id, sequence: nat) {
    exists id :: Numbered(l, id, thread, sequence)
  }

  /** A thread's requests carry the numbers 1 to its count, each once, and there are at most four. */
  ghost predicate Threads(l: Ledger) {
    && (forall id | id in l.entries :: l.entries[id].request.thread in l.threads && 1 <= l.entries[id].request.sequence <= l.threads[l.entries[id].request.thread].count)
    && (forall a, b, t, k: nat | Numbered(l, a, t, k) && Numbered(l, b, t, k) :: a == b)
    && (forall t | t in l.threads :: 1 <= l.threads[t].count <= MAX_THREAD_REQUESTS)
    && (forall t, k: nat | t in l.threads && 1 <= k <= l.threads[t].count :: Filled(l, t, k))
  }

  /** A request that was ever leased comes after nothing unfinished in its thread. */
  ghost predicate Queue(l: Ledger) {
    forall id | id in l.entries && l.entries[id].attempts > 0 :: EarlierDone(l, id)
  }

  function Window(l: Ledger, relation: Id, start: int): set<Id> {
    set r | r in l.entries && l.entries[r].request.relation == relation && start <= l.entries[r].request.createdAt <= start + HOUR
  }

  /** No closed window of one hour holds more than ten requests of a relationship. */
  ghost predicate Rate(l: Ledger) {
    forall relation, start: int :: |Window(l, relation, start)| <= MAX_HOURLY_REQUESTS
  }

  ghost predicate Inv(l: Ledger) {
    Refs(l) && Entries(l) && Threads(l) && Queue(l) && Rate(l)
  }

  // ----- How one request may move -----

  /** How many more status changes a request can go through. */
  function Potential(e: Entry): nat {
    if Terminal(e.status) then 0
    else if e.status == ConfirmationPending then 7
    else
      var leases := if e.attempts < MAX_LEASES then MAX_LEASES - e.attempts else 0;
      2 * leases + if e.status == Leased then 1 else 0
  }

  predicate NoticeOver(status: NoticeStatus) {
    status == NoticeSent || status == NoticeUnknown || status == NoticeSuppressed
  }

  /** Once an attempt has begun a notice is never pending or leased again, and once it is over it stays over. */
  ghost predicate NoticeStep(a: Option<Notice>, b: Option<Notice>) {
    && a.Some? == b.Some?
    && (a.Some? && a.value.status == Attempting ==> b.value.status == Attempting || NoticeOver(b.value.status))
    && (a.Some? && NoticeOver(a.value.status) ==> NoticeOver(b.value.status))
  }

  ghost predicate ConfirmationStep(a: Option<Confirmation>, b: Option<Confirmation>) {
    && a.Some? == b.Some?
    && (a.Some? ==> b.value == a.value.(status := b.value.status) && (a.value.status != Open ==> b.value.status == a.value.status))
  }

  ghost predicate EntryStep(a: Entry, b: Entry) {
    && b.request == a.request && a.attempts <= b.attempts
    && (Terminal(a.status) ==> b.status == a.status && b.response == a.response && b.attempts == a.attempts)
    && (b.status != a.status || b.attempts != a.attempts ==> Potential(b) < Potential(a))
    && NoticeStep(a.notice, b.notice) && ConfirmationStep(a.confirmation, b.confirmation)
  }

  // ----- How permissions may move -----

  ghost predicate RelationStep(a: Relationship, b: Relationship) {
    && a.a == b.a && a.b == b.b && a.invitedBy == b.invitedBy && a.revision <= b.revision
    && (a.revision == b.revision ==> b == a) && (Closed(a.status) ==> b == a)
  }

  /** A grant only changes under a larger revision, and only vanishes with its relationship. */
  ghost predicate GrantStep(l: Ledger, l': Ledger, k: GrantKey) {
    && (k in l.grants && k in l'.grants ==> l.grants[k].revision <= l'.grants[k].revision && (l.grants[k].revision == l'.grants[k].revision ==> l'.grants[k] == l.grants[k]))
    && (k in l.grants && k !in l'.grants ==> RelationClosed(l', k.relation))
    && (RelationClosed(l, k.relation) && k in l'.grants ==> k in l.grants && l'.grants[k] == l.grants[k])
  }

  ghost predicate Evolves(l: Ledger, l': Ledger) {
    && (forall r | r in l.relations :: r in l'.relations && RelationStep(l.relations[r], l'.relations[r]))
    && (forall k :: GrantStep(l, l', k))
  }

  ghost predicate EntriesStep(l: Ledger, l': Ledger) {
    forall id | id in l.entries :: id in l'.entries && EntryStep(l.entries[id], l'.entries[id])
  }

  ghost predicate Moves(l: Ledger, l': Ledger) {
    Evolves(l, l') && EntriesStep(l, l')
  }

  lemma EvolvesTrans(a: Ledger, b: Ledger, c: Ledger)
    requires Evolves(a, b) && Evolves(b, c)
    ensures Evolves(a, c)
  {
    forall r | r in a.relations ensures r in c.relations && RelationStep(a.relations[r], c.relations[r]) {
      assert RelationStep(a.relations[r], b.relations[r]) && RelationStep(b.relations[r], c.relations[r]);
    }
    forall k ensures GrantStep(a, c, k) {
      assert GrantStep(a, b, k) && GrantStep(b, c, k);
      assert k.relation in a.relations ==> RelationStep(a.relations[k.relation], b.relations[k.relation]);
      assert k.relation in b.relations ==> RelationStep(b.relations[k.relation], c.relations[k.relation]);
    }
  }

  lemma EntryStepTrans(a: Entry, b: Entry, c: Entry)
    requires EntryStep(a, b) && EntryStep(b, c)
    ensures EntryStep(a, c)
  {
  }

  lemma EntriesStepTrans(a: Ledger, b: Ledger, c: Ledger)
    requires EntriesStep(a, b) && EntriesStep(b, c)
    ensures EntriesStep(a, c)
  {
    forall id | id in a.entries ensures id in c.entries && EntryStep(a.entries[id], c.entries[id]) {
      EntryStepTrans(a.entries[id], b.entries[id], c.entries[id]);
    }
  }

  lemma MovesTrans(a: Ledger, b: Ledger, c: Ledger)
    requires Moves(a, b) && Moves(b, c)
    ensures Moves(a, c)
  {
    EvolvesTrans(a, b, c);
    EntriesStepTrans(a, b, c);
  }

  lemma MovesRefl(l: Ledger)
    ensures Moves(l, l)
  {
  }

  // ----- Moving entries without adding any -----

  /** No request appears; each moves properly and is sound again; permissions may move with them. */
  ghost predicate Shifts(l: Ledger, l': Ledger) {
    && l'.threads == l.threads && l'.entries.Keys == l.entries.Keys
    && (forall r | r in l.relations :: r in l'.relations)
    && (forall k | k in l'.grants :: k.relation in l'.relations)
    && (forall id | id in l.entries :: ShiftOk(l, l', id))
  }

  ghost predicate ShiftOk(l: Ledger, l': Ledger, id: Id)
    requires id in l.entries && id in l'.entries
  {
    && EntryStep(l.entries[id], l'.entries[id]) && EntryOk(RelationClosed(l', l'.entries[id].request.relation), l'.entries[id])
    && (l'.entries[id].attempts > 0 ==> l.entries[id].attempts > 0 || EarlierDone(l, id))
  }

  lemma ShiftQueue(l: Ledger, l': Ledger)
    requires Queue(l) && Shifts(l, l')
    ensures Queue(l')
  {
    forall id | id in l'.entries && l'.entries[id].attempts > 0 ensures EarlierDone(l', id) {
      assert ShiftOk(l, l', id) && EarlierDone(l, id);
      forall p | p in l'.entries && l'.entries[p].request.thread == l'.entries[id].request.thread && l'.entries[p].request.sequence < l'.entries[id].request.sequence
        ensures Terminal(l'.entries[p].status)
      {
        assert ShiftOk(l, l', p);
      }
    }
  }

  lemma ShiftThreads(l: Ledger, l': Ledger)
    requires Threads(l) && Shifts(l, l')
    ensures Threads(l')
  {
    forall id | id in l.entries ensures l'.entries[id].request == l.entries[id].request {
      assert ShiftOk(l, l', id);
    }
    hide ShiftOk;
    forall id, t, k: nat ensures Numbered(l', id, t, k) == Numbered(l, id, t, k) {}
    forall t, k: nat ensures Filled(l', t, k) == Filled(l, t, k) {
      if Filled(l, t, k) {
        var id :| Numbered(l, id, t, k);
        assert Numbered(l', id, t, k);
      }
    }
  }

  lemma ShiftRate(l: Ledger, l': Ledger)
    requires Rate(l) && Shifts(l, l')
    ensures Rate(l')
  {
    forall id | id in l.entries ensures l'.entries[id].request == l.entries[id].request {
      assert ShiftOk(l, l', id);
    }
    hide ShiftOk;
    forall relation, start: int ensures Window(l', relation, start) == Window(l, relation, start) {}
  }

  lemma ShiftRows(l: Ledger, l': Ledger)
    requires Refs(l) && Shifts(l, l')
    ensures Refs(l') && Entries(l') && EntriesStep(l, l')
  {
    hide EntryOk;
    forall id | id in l.entries ensures EntryStep(l.entries[id], l'.entries[id]) && l'.entries[id].request == l.entries[id].request
      && EntryOk(RelationClosed(l', l'.entries[id].request.relation), l'.entries[id])
    {
      assert ShiftOk(l, l', id);
    }
    hide EntryStep;
    hide ShiftOk;
  }

  lemma ShiftKeeps(l: Ledger, l': Ledger)
    requires Inv(l) && Shifts(l, l')
    ensures Inv(l') && EntriesStep(l, l')
  {
    hide Threads;
    hide Queue;
    hide Rate;
    hide Shifts;
    hide Refs;
    hide Entries;
    hide EntriesStep;
    ShiftRows(l, l');
    ShiftQueue(l, l');
    ShiftThreads(l, l');
    ShiftRate(l, l');
  }

  lemma SetEntryShifts(l: Ledger, id: Id, e: Entry)
    requires Refs(l) && Entries(l) && id in l.entries && EntryStep(l.entries[id], e) && EntryOk(RelationClosed(l, e.request.relation), e)
    requires e.attempts > 0 ==> l.entries[id].attempts > 0 || EarlierDone(l, id)
    ensures Shifts(l, SetEntry(l, id, e))
  {
    var l' := SetEntry(l, id, e);
    hide EntryOk;
    hide EarlierDone;
    forall p | p in l.entries ensures ShiftOk(l, l', p) {
      if p != id {
        EntryStepRefl(l.entries[p]);
      }
      hide EntryStep;
    }
    hide ShiftOk;
  }

  /** A change to one request. */
  lemma SetEntryKeeps(l: Ledger, id: Id, e: Entry)
    requires Inv(l) && id in l.entries && EntryStep(l.entries[id], e) && EntryOk(RelationClosed(l, e.request.relation), e)
    requires e.attempts > 0 ==> l.entries[id].attempts > 0 || EarlierDone(l, id)
    ensures Inv(SetEntry(l, id, e)) && Moves(l, SetEntry(l, id, e))
  {
    SetEntryShifts(l, id, e);
    hide EntryStep;
    hide EntryOk;
    hide EarlierDone;
    hide Shifts;
    hide Inv;
    ShiftKeeps(l, SetEntry(l, id, e));
    hide EntriesStep;
  }

  lemma EntryStepRefl(e: Entry)
    ensures EntryStep(e, e)
  {
  }
}
