/** The peer exchange tables, and each store call as one transaction over them. The confirmation, the notice and
    the response of a request are unique per request, so each is an optional part of the request's entry. */
module PeerLedger {
  import opened Wrappers
  import opened PeerPolicy

  const MICROS := 1_000_000
  const HOUR := 3600 * MICROS
  const THREAD_LIFETIME := 900 * MICROS
  const CONFIRMATION_LIFETIME := 900 * MICROS
  const MAX_THREAD_REQUESTS := 4
  const MAX_HOURLY_REQUESTS := 10
  const MAX_HOURLY_OUTBOUND_INVITES := 10
  const MAX_HOURLY_INBOUND_INVITES := 20
  const MAX_LEASES := 3
  const MAX_LEASE_SECONDS := 15
  const EXECUTION_SECONDS := 60

  datatype GrantKey = GrantKey(relation: Id, grantor: Owner)

  datatype Thread = Thread(relation: Id, sender: Owner, recipient: Owner, createdAt: int, expires: int, count: nat)

  datatype ConfirmationStatus = Open | Confirmed | Cancelled | Expired

  /** A pending permission and the permissions it was asked under. */
  datatype Confirmation = Confirmation(
    owner: Owner, status: ConfirmationStatus, text: string, expires: int, relationRevision: nat, grantRevisions: map<Owner, nat>)

  datatype NoticeStatus = NoticePending | NoticeLeased | Attempting | NoticeSent | NoticeUnknown | NoticeSuppressed

  datatype Notice = Notice(status: NoticeStatus, token: Option<Id>, until: Option<int>, availableAt: int)

  datatype Response = Response(responder: Owner, frames: seq<string>, failed: bool)

  datatype Entry = Entry(
    request: Request, status: RequestStatus, token: Option<Id>, until: Option<int>, deadline: Option<int>,
    attempts: nat, availableAt: int, confirmation: Option<Confirmation>, notice: Option<Notice>, response: Option<Response>)

  datatype Ledger = Ledger(
    handles: map<string, Owner>, deleted: set<Owner>, relations: map<Id, Relationship>, grants: map<GrantKey, Grant>,
    threads: map<Id, Thread>, entries: map<Id, Entry>)

  const EMPTY := Ledger(map[], {}, map[], map[], map[], map[])

  datatype Step<+T> = Aborted | Committed(ledger: Ledger, value: T)

  function After<T>(l: Ledger, step: Step<T>): Ledger {
    if step.Committed? then step.ledger else l
  }

  predicate Terminal(status: RequestStatus) {
    status == Completed || status == Failed || status == Denied
  }

  predicate Closed(status: RelationStatus) {
    status == Revoked || status == Blocked
  }

  function GrantsOf(l: Ledger, relation: Id): map<Owner, Grant> {
    map k | k in l.grants && k.relation == relation :: k.grantor := l.grants[k]
  }

  function GrantRevisions(l: Ledger, relation: Id): map<Owner, nat> {
    map o | o in GrantsOf(l, relation) :: GrantsOf(l, relation)[o].revision
  }

  function RelationOf(l: Ledger, relation: Id): Option<Relationship> {
    if relation in l.relations then Some(l.relations[relation]) else None
  }

  function DecideNow(l: Ledger, r: Request, status: RequestStatus, now: int): Decision {
    Decide(r.relation, RelationOf(l, r.relation), GrantsOf(l, r.relation), Some(r), status, now)
  }

  predicate RelationActive(l: Ledger, relation: Id) {
    relation in l.relations && l.relations[relation].status == Active
  }

  // ----- Handles, relationships and grants -----

  predicate HasHandle(l: Ledger, owner: Owner) {
    exists h | h in l.handles :: l.handles[h] == owner
  }

  function RegisterHandle(l: Ledger, owner: Owner, handle: string): Step<()> {
    if owner in l.deleted || (handle in l.handles && l.handles[handle] != owner) then Aborted
    else Committed(l.(handles := (map h | h in l.handles && l.handles[h] != owner :: l.handles[h])[handle := owner]), ())
  }

  predicate Between(r: Relationship, a: Owner, b: Owner) {
    (r.a == a && r.b == b) || (r.a == b && r.b == a)
  }

  function RecentInvites(l: Ledger, inviter: Owner, since: int): nat {
    |set r | r in l.relations && l.relations[r].invitedBy == inviter && l.relations[r].status == Invited && l.relations[r].createdAt >= since|
  }

  function RecentInvitations(l: Ledger, invitee: Owner, since: int): nat {
    |set r | r in l.relations && l.relations[r].status == Invited && l.relations[r].invitedBy != invitee && l.relations[r].Has(invitee) && l.relations[r].createdAt >= since|
  }

  function Invite(l: Ledger, owner: Owner, handle: string, id: Id, now: int): Step<bool> {
    if owner in l.deleted then Aborted
    else if handle !in l.handles then Committed(l, false)
    else
      var other := l.handles[handle];
      if other == owner then Aborted
      else if exists r | r in l.relations :: Between(l.relations[r], owner, other) then Committed(l, true)
      else if RecentInvites(l, owner, now - HOUR) >= MAX_HOURLY_OUTBOUND_INVITES || RecentInvitations(l, other, now - HOUR) >= MAX_HOURLY_INBOUND_INVITES then Aborted
      else if id in l.relations then Aborted
      else
        var a, b := if owner < other then owner else other, if owner < other then other else owner;
        Committed(l.(relations := l.relations[id := Relationship(a, b, owner, Invited, now, 1)]), true)
  }

  function SetRelation(l: Ledger, id: Id, status: RelationStatus): Ledger
    requires id in l.relations
  {
    l.(relations := l.relations[id := l.relations[id].(status := status, revision := l.relations[id].revision + 1)])
  }

  datatype Acceptance = NotFound | NotInvitee | NotPending | Accepted

  function Accept(l: Ledger, owner: Owner, id: Id): Step<Acceptance> {
    if id !in l.relations || !l.relations[id].Has(owner) then Committed(l, NotFound)
    else if l.relations[id].invitedBy == owner then Committed(l, NotInvitee)
    else if l.relations[id].status == Active then Committed(l, Accepted)
    else if l.relations[id].status != Invited then Committed(l, NotPending)
    else Committed(SetRelation(l, id, Active), Accepted)
  }

  function UpdateGrant(l: Ledger, owner: Owner, id: Id, grantee: Owner, communicate: bool, autoReply: bool, share: bool, expected: nat, expires: Option<int>, now: int): Step<bool> {
    if !RelationActive(l, id) || !l.relations[id].Has(owner) || grantee == owner || !l.relations[id].Has(grantee) then Committed(l, false)
    else
      var key := GrantKey(id, owner);
      var current := if key in l.grants then l.grants[key].revision else 0;
      if current != expected then Aborted
      else Committed(l.(grants := l.grants[key := Grant(communicate, autoReply, share, current + 1, expires, now)]), true)
  }

  function SuppressedNotice(n: Notice): Notice {
    n.(status := NoticeSuppressed, token := None, until := None)
  }

  /** A request of a closed relationship: denied if unfinished, its waiting notice suppressed. */
  function ClosedEntry(e: Entry, allNotices: bool): Entry {
    var e1 := if Terminal(e.status) then e else e.(status := Denied, token := None, until := None);
    if e.notice.Some? && (allNotices || e.notice.value.status == NoticePending || e.notice.value.status == NoticeLeased)
    then e1.(notice := Some(SuppressedNotice(e.notice.value))) else e1
  }

  function CloseEntries(l: Ledger, relation: Id, allNotices: bool): Ledger {
    l.(entries := map r | r in l.entries :: if l.entries[r].request.relation == relation then ClosedEntry(l.entries[r], allNotices) else l.entries[r])
  }

  predicate Revocable(l: Ledger, relation: Id) {
    relation in l.relations && !Closed(l.relations[relation].status)
  }

  function Revoke(l: Ledger, owner: Owner, id: Id, block: bool): Step<bool> {
    if !Revocable(l, id) || !l.relations[id].Has(owner) then Committed(l, false)
    else Committed(CloseEntries(SetRelation(l, id, if block then Blocked else Revoked), id, false), true)
  }

  /** One relationship of a deleted owner. */
  function CloseForDeletion(l: Ledger, id: Id): Ledger {
    var l1 := CloseEntries(if Revocable(l, id) then SetRelation(l, id, Revoked) else l, id, true);
    l1.(grants := map k | k in l1.grants && k.relation != id :: l1.grants[k])
  }

  function CloseAll(l: Ledger, ids: seq<Id>): Ledger
    decreases |ids|
  {
    if ids == [] then l else CloseAll(CloseForDeletion(l, ids[0]), ids[1..])
  }

  predicate ListsRelations(l: Ledger, owner: Owner, ids: seq<Id>) {
    && (forall i | 0 <= i < |ids| :: ids[i] in l.relations && l.relations[ids[i]].Has(owner))
    && (forall r | r in l.relations && l.relations[r].Has(owner) :: r in ids)
  }

  /** `delete_owner`; `ids` are the relationships of the owner. */
  function DeleteOwner(l: Ledger, owner: Owner, ids: seq<Id>): Step<()> {
    if !ListsRelations(l, owner, ids) then Aborted
    else
      var l1 := CloseAll(l, ids);
      Committed(l1.(deleted := l1.deleted + {owner}, handles := map h | h in l1.handles && l1.handles[h] != owner :: l1.handles[h]), ())
  }

  // ----- Submitting -----

  predicate SameCall(a: Request, b: Request) {
    a.sender == b.sender && a.generation == b.generation && a.call == b.call
  }

  function RequestsSince(l: Ledger, relation: Id, since: int): set<Id> {
    set r | r in l.entries && l.entries[r].request.relation == relation && l.entries[r].request.createdAt >= since
  }

  function NewConfirmation(l: Ledger, r: Request, now: int): Confirmation
    requires r.relation in l.relations
  {
    Confirmation(r.recipient, Open, r.text, now + CONFIRMATION_LIFETIME, l.relations[r.relation].revision, GrantRevisions(l, r.relation))
  }

  function NewEntry(l: Ledger, r: Request, sequence: nat, confirm: bool, now: int): Entry
    requires r.relation in l.relations
  {
    Entry(
      r.(sequence := sequence, createdAt := now), if confirm then ConfirmationPending else Pending, None, None, None, 0, now,
      if confirm then Some(NewConfirmation(l, r, now)) else None,
      if confirm then Some(Notice(NoticePending, None, None, now)) else None,
      None)
  }

  predicate ThreadFits(t: Thread, r: Request) {
    t.relation == r.relation && t.sender == r.sender && t.recipient == r.recipient
  }

  /** `submit` of the store: a repeated call changes nothing; the answer tells whether it was one. */
  function Submit(l: Ledger, id: Id, r: Request, confirm: bool, now: int): Step<bool> {
    if exists d | d in l.entries :: SameCall(l.entries[d].request, r) then Committed(l, true)
    else if |RequestsSince(l, r.relation, now - HOUR)| >= MAX_HOURLY_REQUESTS then Aborted
    else if r.sender == r.recipient || r.relation !in l.relations || id in l.entries then Aborted
    else if r.thread !in l.threads then
      var thread := Thread(r.relation, r.sender, r.recipient, now, now + THREAD_LIFETIME, 1);
      Committed(l.(threads := l.threads[r.thread := thread], entries := l.entries[id := NewEntry(l, r, 1, confirm, now)]), false)
    else
      var t := l.threads[r.thread];
      if !ThreadFits(t, r) || t.expires <= now || t.count >= MAX_THREAD_REQUESTS then Aborted
      else Committed(l.(threads := l.threads[r.thread := t.(count := t.count + 1)], entries := l.entries[id := NewEntry(l, r, t.count + 1, confirm, now)]), false)
  }

  // ----- Confirmations -----

  function SetEntry(l: Ledger, id: Id, e: Entry): Ledger {
    l.(entries := l.entries[id := e])
  }

  function QuietNotice(e: Entry): Option<Notice> {
    if e.notice.Some? && (e.notice.value.status == NoticePending || e.notice.value.status == NoticeLeased)
    then Some(SuppressedNotice(e.notice.value)) else e.notice
  }

  function Decided(e: Entry, confirmation: ConfirmationStatus, status: RequestStatus): Entry
    requires e.confirmation.Some?
  {
    e.(status := status, confirmation := Some(e.confirmation.value.(status := confirmation)), notice := QuietNotice(e))
  }

  /** The permissions recorded with the confirmation are still the current ones and still allow the request. */
  predicate StillValid(l: Ledger, e: Entry, now: int)
    requires e.confirmation.Some?
  {
    var c := e.confirmation.value;
    && RelationActive(l, e.request.relation) && l.relations[e.request.relation].revision == c.relationRevision
    && c.text == e.request.text && GrantRevisions(l, e.request.relation) == c.grantRevisions
    && DecideNow(l, e.request, Authorized, now) == Allow
  }

  datatype Answer = Missing | Replayed | Late | Granted | Refused

  function DecideConfirmation(l: Ledger, owner: Owner, id: Id, approve: bool, now: int): Step<Answer> {
    if id !in l.entries || l.entries[id].confirmation.None? || l.entries[id].confirmation.value.owner != owner then Committed(l, Missing)
    else
      var e := l.entries[id];
      if e.confirmation.value.status != Open then Committed(l, Replayed)
      else if e.confirmation.value.expires <= now then Committed(SetEntry(l, id, Decided(e, Expired, Denied)), Late)
      else if approve && StillValid(l, e, now) then Committed(SetEntry(l, id, Decided(e, Confirmed, Authorized)), Granted)
      else Committed(SetEntry(l, id, Decided(e, Cancelled, Denied)), Refused)
  }

  function SupersededNotice(e: Entry): Option<Notice> {
    if e.notice.Some? && (e.notice.value.status == NoticePending || e.notice.value.status == NoticeLeased || e.notice.value.status == Attempting)
    then Some(SuppressedNotice(e.notice.value)) else e.notice
  }

  predicate ConfirmationOpen(e: Entry) {
    e.confirmation.Some? && e.confirmation.value.status == Open
  }

  function CancelledEntry(e: Entry): Entry {
    if !ConfirmationOpen(e) then e
    else e.(confirmation := Some(e.confirmation.value.(status := Cancelled)), notice := SupersededNotice(e))
  }

  function CancelSuperseded(l: Ledger, id: Id): Step<bool> {
    if id !in l.entries || !ConfirmationOpen(l.entries[id]) then Committed(l, false)
    else
      var e := CancelledEntry(l.entries[id]);
      Committed(SetEntry(l, id, if e.status == ConfirmationPending then e.(status := Denied) else e), true)
  }

  function DenySuperseded(l: Ledger, id: Id): Step<bool> {
    if id !in l.entries then Committed(l, false)
    else
      var e := CancelledEntry(l.entries[id]);
      if Terminal(e.status) then Committed(SetEntry(l, id, e), false)
      else Committed(SetEntry(l, id, e.(status := Denied, token := None, until := None)), true)
  }

  // ----- Notices -----

  function RecoveredNotice(n: Notice, now: int): Notice {
    if n.until.Some? && n.until.value <= now then
      if n.status == Attempting then Notice(NoticeUnknown, None, None, n.availableAt)
      else if n.status == NoticeLeased then Notice(NoticePending, None, None, n.availableAt)
      else n
    else n
  }

  function RecoverNotices(l: Ledger, now: int): Ledger {
    l.(entries := map r | r in l.entries ::
         if l.entries[r].notice.Some? then l.entries[r].(notice := Some(RecoveredNotice(l.entries[r].notice.value, now))) else l.entries[r])
  }

  predicate NoticeReady(l: Ledger, id: Id, now: int) {
    id in l.entries && l.entries[id].notice.Some? && l.entries[id].notice.value.status == NoticePending && l.entries[id].notice.value.availableAt <= now
  }

  /** The loop of `claim_notice` over the rows its query returns. */
  function PickNotice(l: Ledger, rows: seq<Id>, now: int, until: int, token: Id): Step<Option<Id>>
    decreases |rows|
  {
    if rows == [] then Committed(l, None)
    else if !NoticeReady(l, rows[0], now) then Aborted
    else
      var e := l.entries[rows[0]];
      var n := e.notice.value;
      if !ConfirmationOpen(e) || e.confirmation.value.expires <= now || !RelationActive(l, e.request.relation) || !HasHandle(l, e.request.sender)
      then PickNotice(SetEntry(l, rows[0], e.(notice := Some(SuppressedNotice(n)))), rows[1..], now, until, token)
      else Committed(SetEntry(l, rows[0], e.(notice := Some(n.(status := NoticeLeased, token := Some(token), until := Some(until))))), Some(rows[0]))
  }

  function ClaimNotice(l: Ledger, rows: seq<Id>, now: int, seconds: int, token: Id): Step<Option<Id>> {
    if !(1 <= seconds <= 3600) then Aborted else PickNotice(RecoverNotices(l, now), rows, now, now + seconds * MICROS, token)
  }

  predicate HoldsNotice(l: Ledger, id: Id, token: Id, status: NoticeStatus, now: int) {
    && id in l.entries && l.entries[id].notice.Some? && l.entries[id].notice.value.status == status
    && l.entries[id].notice.value.token == Some(token) && l.entries[id].notice.value.until.Some? && l.entries[id].notice.value.until.value > now
  }

  function BeginNotice(l: Ledger, id: Id, token: Id, now: int): Step<bool> {
    if !HoldsNotice(l, id, token, NoticeLeased, now) then Committed(l, false)
    else Committed(SetEntry(l, id, l.entries[id].(notice := Some(l.entries[id].notice.value.(status := Attempting)))), true)
  }

  function CompleteNotice(l: Ledger, id: Id, token: Id, outcome: NoticeStatus, now: int): Step<bool> {
    if outcome == NoticeLeased || outcome == Attempting then Aborted
    else if !HoldsNotice(l, id, token, if outcome == NoticePending then NoticeLeased else Attempting, now) then Committed(l, false)
    else Committed(SetEntry(l, id, l.entries[id].(notice := Some(Notice(outcome, None, None, if outcome == NoticePending then now + 60 * MICROS else now)))), true)
  }

  // ----- Leasing requests -----

  const APOLOGY := "unable to answer right now"

  predicate Exhausted(e: Entry, now: int) {
    || ((e.status == Pending || e.status == Authorized || e.status == Leased) && e.deadline.Some? && e.deadline.value <= now)
    || (e.status == Leased && e.until.Some? && e.until.value <= now && e.attempts >= MAX_LEASES)
  }

  /** A request that fails for good gets its apology; an older response would be kept. */
  function GivenUp(e: Entry): Entry {
    e.(status := Failed, token := None, until := None,
       response := if e.response.Some? then e.response else Some(Response(e.request.recipient, [APOLOGY], true)))
  }

  predicate ConfirmedOnce(e: Entry) {
    e.confirmation.Some? && e.confirmation.value.status == Confirmed
  }

  /** The status a lease gives back. */
  function Unleased(e: Entry): RequestStatus {
    if ConfirmedOnce(e) then Authorized else Pending
  }

  function ExpiredEntry(e: Entry, now: int): Entry {
    if Exhausted(e, now) then GivenUp(e)
    else if e.status == Leased && e.until.Some? && e.until.value <= now && e.attempts < MAX_LEASES then e.(status := Unleased(e), token := None, until := None)
    else e
  }

  /** The first part of `claim_candidates`: give up what is exhausted, take back expired leases. */
  function ExpireLeases(l: Ledger, now: int): Ledger {
    l.(entries := map r | r in l.entries :: ExpiredEntry(l.entries[r], now))
  }

  predicate EarlierDone(l: Ledger, id: Id) {
    id in l.entries && forall p | p in l.entries && l.entries[p].request.thread == l.entries[id].request.thread && l.entries[p].request.sequence < l.entries[id].request.sequence ::
      Terminal(l.entries[p].status)
  }

  predicate Candidate(l: Ledger, id: Id, now: int) {
    && id in l.entries && (l.entries[id].status == Pending || l.entries[id].status == Authorized)
    && l.entries[id].attempts < MAX_LEASES && l.entries[id].availableAt <= now && EarlierDone(l, id)
  }

  function Earlier(a: int, b: int): int {
    if a < b then a else b
  }

  function LeasedEntry(e: Entry, token: Id, now: int, seconds: int, threadEnd: int): Entry {
    e.(status := Leased, token := Some(token), until := Some(now + Earlier(seconds, MAX_LEASE_SECONDS) * MICROS),
       deadline := if e.deadline.Some? then e.deadline else Some(Earlier(now + EXECUTION_SECONDS * MICROS, threadEnd)),
       attempts := e.attempts + 1)
  }

  predicate ThreadLive(l: Ledger, thread: Id, now: int) {
    thread in l.threads && l.threads[thread].expires > now
  }

  /** The loop of `claim_candidates` over the rows its query returned. */
  function PickRequest(l: Ledger, rows: seq<Id>, now: int, seconds: int, token: Id): Step<Option<Id>>
    decreases |rows|
  {
    if rows == [] then Committed(l, None)
    else if rows[0] !in l.entries || !(l.entries[rows[0]].status == Pending || l.entries[rows[0]].status == Authorized) then Aborted
    else
      var e := l.entries[rows[0]];
      if !RelationActive(l, e.request.relation) || !ThreadLive(l, e.request.thread, now)
      then PickRequest(SetEntry(l, rows[0], e.(status := Denied)), rows[1..], now, seconds, token)
      else Committed(SetEntry(l, rows[0], LeasedEntry(e, token, now, seconds, l.threads[e.request.thread].expires)), Some(rows[0]))
  }

  predicate AllCandidates(l: Ledger, rows: seq<Id>, now: int) {
    && (forall i | 0 <= i < |rows| :: Candidate(l, rows[i], now))
    && (forall i, j | 0 <= i < j < |rows| :: rows[i] != rows[j])
  }

  /** `claim_candidates`; `rows` are the rows its query returns once leases have expired. */
  function ClaimCandidates(l: Ledger, rows: seq<Id>, now: int, seconds: int, token: Id): Step<Option<Id>> {
    if !(1 <= seconds <= 3600) then Aborted
    else
      var l1 := ExpireLeases(l, now);
      if !AllCandidates(l1, rows, now) then Aborted else PickRequest(l1, rows, now, seconds, token)
  }

  predicate HoldsRequest(l: Ledger, id: Id, token: Id) {
    id in l.entries && l.entries[id].status == Leased && l.entries[id].token == Some(token)
  }

  function DenyClaim(l: Ledger, id: Id, token: Id): Step<bool> {
    if !HoldsRequest(l, id, token) then Committed(l, false)
    else Committed(SetEntry(l, id, l.entries[id].(status := Denied, token := None, until := None)), true)
  }

  predicate LeaseLive(e: Entry, now: int) {
    e.until.Some? && e.until.value > now
  }

  function DeferSeconds(attempts: nat): nat {
    if PowerOfTwo(attempts) < 60 then PowerOfTwo(attempts) else 60
  }

  function Defer(l: Ledger, id: Id, token: Id, now: int): Step<bool> {
    if !HoldsRequest(l, id, token) || !LeaseLive(l.entries[id], now) then Committed(l, false)
    else
      var e := l.entries[id];
      if e.attempts >= MAX_LEASES then
        if e.response.Some? then Aborted else Committed(SetEntry(l, id, GivenUp(e)), false)
      else
        Committed(SetEntry(l, id, e.(status := Unleased(e), token := None, until := None, availableAt := now + DeferSeconds(e.attempts) * MICROS)), true)
  }

  /** The lease, its deadline, its thread and its relationship are all still live. */
  predicate LeaseStands(l: Ledger, id: Id, token: Id, now: int) {
    && HoldsRequest(l, id, token) && LeaseLive(l.entries[id], now)
    && l.entries[id].deadline.Some? && l.entries[id].deadline.value > now
    && ThreadLive(l, l.entries[id].request.thread, now) && RelationActive(l, l.entries[id].request.relation)
  }

  /** The permission fence: the revisions seen at the claim are current and still allow the request. */
  predicate SamePermissions(l: Ledger, id: Id, relationRevision: nat, grantRevisions: map<Owner, nat>, now: int) {
    && id in l.entries
    && var r := l.entries[id].request;
    && r.relation in l.relations && l.relations[r.relation].revision == relationRevision
    && GrantRevisions(l, r.relation) == grantRevisions && DecideNow(l, r, l.entries[id].status, now) == Allow
  }

  function Heartbeat(l: Ledger, id: Id, token: Id, revisions: Option<(nat, map<Owner, nat>)>, now: int, seconds: int): Step<bool> {
    if !(1 <= seconds <= 3600) then Aborted
    else if !LeaseStands(l, id, token, now) || (revisions.Some? && !SamePermissions(l, id, revisions.value.0, revisions.value.1, now)) then Committed(l, false)
    else Committed(SetEntry(l, id, l.entries[id].(until := Some(now + Earlier(seconds, MAX_LEASE_SECONDS) * MICROS))), true)
  }

  predicate ValidResponse(frames: seq<string>) {
    1 <= |frames| <= 3 && (forall i | 0 <= i < |frames| :: 0 < |frames[i]|) && TotalLength(frames) <= 2000
  }

  function TotalLength(frames: seq<string>): nat {
    if frames == [] then 0 else |frames[0]| + TotalLength(frames[1..])
  }

  function FinishedEntry(e: Entry, frames: seq<string>, failed: bool): Entry {
    e.(status := if failed then Failed else Completed, token := None, until := None, response := Some(Response(e.request.recipient, frames, failed)))
  }

  function Finish(l: Ledger, owner: Owner, id: Id, token: Id, frames: seq<string>, relationRevision: nat, grantRevisions: map<Owner, nat>, failed: bool, now: int): Step<bool> {
    if !ValidResponse(frames) then Aborted
    else if !LeaseStands(l, id, token, now) || l.entries[id].request.recipient != owner || !SamePermissions(l, id, relationRevision, grantRevisions, now)
    then Committed(l, false)
    else if l.entries[id].response.Some? then Aborted
    else Committed(SetEntry(l, id, FinishedEntry(l.entries[id], frames, failed)), true)
  }
}
