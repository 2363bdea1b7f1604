/** The personal-data tables: sessions with their revision fence, messages, accepted generations, memories and the
    owner's governance revision; and each repository call as one transaction over them. */
module PersonalData {
  import opened Wrappers

  type Owner = nat
  type Id = nat

  /** A session row is named by its owner and its session key. */
  datatype SessionKey = SessionKey(owner: Owner, key: nat)

  /** What the current revision of a session belongs to: a generation, or the purge of a window. */
  datatype Fence = Generation(id: Id) | Purged(owner: Owner, start: int, end: int)

  datatype Current = Current(fence: Fence, revision: nat)

  datatype Role = User | Assistant | Automation

  /** Message identifiers, connector identifiers and generation identifiers share one space of references. */
  datatype Message = Message(session: SessionKey, role: Role, burst: Option<Id>, gen: Option<Id>, connector: Option<Id>, timestamp: int)

  datatype MemoryStatus = Provisional | Active | Archived | DisabledByAgent | DisabledByUser | Superseded

  datatype Action = Add | Upsert | Remove | Archive | DisableByAgent

  datatype Memory = Memory(
    owner: Owner, topic: nat, fingerprint: nat, status: MemoryStatus, archived: bool, gen: Option<Id>, session: nat,
    governance: nat, action: Action, supersedes: Option<Id>, sources: set<Id>, createdAt: int)

  datatype Settings = Settings(capture: bool, revision: nat)

  datatype Tables = Tables(
    sessions: map<SessionKey, Option<Current>>, messages: map<Id, Message>, accepted: set<(SessionKey, Id)>,
    memories: map<Id, Memory>, settings: map<Owner, Settings>)

  const EMPTY := Tables(map[], map[], {}, map[], map[])

  datatype Step<+T> = Aborted | Committed(tables: Tables, value: T)

  function After<T>(t: Tables, step: Step<T>): Tables {
    if step.Committed? then step.tables else t
  }

  function SettingsOf(t: Tables, owner: Owner): Settings {
    if owner in t.settings then t.settings[owner] else Settings(true, 0)
  }

  function Governance(t: Tables, owner: Owner): nat {
    SettingsOf(t, owner).revision
  }

  function CurrentOf(t: Tables, s: SessionKey): Option<Current> {
    if s in t.sessions then t.sessions[s] else None
  }

  // ----- Saving a session -----

  /** Who saves: a legacy caller without a revision, or a generation under its revision. */
  datatype Writer = Unversioned | Versioned(gen: Id, revision: nat)

  /** The fence of `save_session`. */
  predicate MaySave(current: Option<Current>, w: Writer) {
    match current
    case None => true
    case Some(c) => w.Versioned? && (w.revision > c.revision || (w.revision == c.revision && c.fence == Generation(w.gen)))
  }

  function Saved(current: Option<Current>, w: Writer): Option<Current> {
    if w.Versioned? && (current.None? || w.revision > current.value.revision) then Some(Current(Generation(w.gen), w.revision)) else current
  }

  /** Insert a message; an assistant message of the same generation is rewritten, any other is immutable. */
  function PutMessage(messages: map<Id, Message>, id: Id, m: Message): map<Id, Message> {
    if id !in messages then messages[id := m]
    else if m.role == Assistant && m.gen.Some? then messages[id := messages[id].(timestamp := m.timestamp)]
    else messages
  }

  function PutMessages(messages: map<Id, Message>, rows: seq<(Id, Message)>): map<Id, Message>
    decreases |rows|
  {
    if rows == [] then messages else PutMessages(PutMessage(messages, rows[0].0, rows[0].1), rows[1..])
  }

  /** Requested generations that have an assistant message in this session and were not accepted before. */
  function NewlyAccepted(t: Tables, s: SessionKey, requested: set<Id>): set<Id> {
    set g | g in requested && (s, g) !in t.accepted && exists m | m in t.messages :: t.messages[m].session == s && t.messages[m].role == Assistant && t.messages[m].gen == Some(g)
  }

  function SetMemory(t: Tables, id: Id, m: Memory): Tables {
    t.(memories := t.memories[id := m])
  }

  function SetStatus(t: Tables, id: Id, status: MemoryStatus): Tables {
    if id in t.memories then SetMemory(t, id, t.memories[id].(status := status)) else t
  }

  /** Update the target of a control unless its owner disabled it. */
  function SetUnlessDisabled(t: Tables, id: Id, status: MemoryStatus): Tables {
    if id in t.memories && t.memories[id].status == DisabledByUser then t else SetStatus(t, id, status)
  }

  function Visible(m: Memory): MemoryStatus {
    if m.archived then Archived else Active
  }

  /** One turn of the promotion loop, for a provisional row read at its start. */
  function Promote(t: Tables, id: Id, m: Memory): Tables {
    if m.governance != Governance(t, m.owner) then SetStatus(t, id, Superseded)
    else match m.action
      case Remove => SetStatus(if m.supersedes.Some? then SetStatus(t, m.supersedes.value, Superseded) else t, id, Superseded)
      case Archive => SetStatus(if m.supersedes.Some? then SetUnlessDisabled(t, m.supersedes.value, Archived) else t, id, Superseded)
      case DisableByAgent => SetStatus(if m.supersedes.Some? then SetUnlessDisabled(t, m.supersedes.value, DisabledByAgent) else t, id, Superseded)
      case _ => SetStatus(if m.action == Upsert && m.supersedes.Some? then SetUnlessDisabled(t, m.supersedes.value, Superseded) else t, id, Visible(m))
  }

  function PromoteAll(t: Tables, rows: seq<(Id, Memory)>): Tables
    decreases |rows|
  {
    if rows == [] then t else PromoteAll(Promote(t, rows[0].0, rows[0].1), rows[1..])
  }

  /** The provisional memories that newly accepted generations of this session staged. */
  predicate Promotable(t: Tables, s: SessionKey, accepted: set<Id>, id: Id) {
    && id in t.memories && t.memories[id].owner == s.owner && t.memories[id].status == Provisional
    && t.memories[id].session == s.key && t.memories[id].gen.Some? && t.memories[id].gen.value in accepted
  }

  predicate ListsPromotable(t: Tables, s: SessionKey, accepted: set<Id>, rows: seq<(Id, Memory)>) {
    && (forall i | 0 <= i < |rows| :: Promotable(t, s, accepted, rows[i].0) && rows[i].1 == t.memories[rows[i].0])
    && (forall i, j | 0 <= i < j < |rows| :: rows[i].0 != rows[j].0)
    && (forall id | id in t.memories && Promotable(t, s, accepted, id) :: exists i | 0 <= i < |rows| :: rows[i].0 == id)
  }

  /** The session row and the messages, before any acceptance. */
  function SavedMessages(t: Tables, s: SessionKey, w: Writer, messages: seq<(Id, Message)>): Tables {
    t.(sessions := t.sessions[s := Saved(CurrentOf(t, s), w)], messages := PutMessages(t.messages, messages))
  }

  /** `save_session`; `rows` are the provisional memories its query returns. */
  function Save(t: Tables, s: SessionKey, w: Writer, active: bool, messages: seq<(Id, Message)>, requested: set<Id>, rows: seq<(Id, Memory)>): Step<bool> {
    if !active || !MaySave(CurrentOf(t, s), w) then Committed(t, false)
    else if exists i | 0 <= i < |messages| :: messages[i].1.session != s then Aborted
    else
      var t1 := SavedMessages(t, s, w, messages);
      var accepted := NewlyAccepted(t1, s, requested);
      if !ListsPromotable(t1, s, accepted, rows) then Aborted
      else Committed(PromoteAll(t1.(accepted := t1.accepted + set g | g in accepted :: (s, g)), rows), true)
  }

  // ----- Governance -----

  function Bump(t: Tables, owner: Owner): Tables {
    t.(settings := t.settings[owner := SettingsOf(t, owner).(revision := Governance(t, owner) + 1)])
  }

  function UpdateSetting(t: Tables, owner: Owner, capture: bool): Tables {
    t.(settings := t.settings[owner := Settings(capture, Governance(t, owner) + 1)])
  }

  predicate Owns(t: Tables, owner: Owner, ids: set<Id>) {
    forall id | id in ids :: id in t.memories && t.memories[id].owner == owner
  }

  /** `disable_by_user`. */
  function DisableByUser(t: Tables, owner: Owner, ids: set<Id>): Step<bool> {
    if ids == {} || !Owns(t, owner, ids) then Committed(t, false)
    else
      var t1 := t.(memories := map id | id in t.memories :: if id in ids then t.memories[id].(status := DisabledByUser) else t.memories[id]);
      Committed(Bump(t1, owner), true)
  }

  /** Rows of deleted memories go, and references to them become null. */
  function DropMemories(t: Tables, gone: set<Id>): Tables {
    t.(memories := map id | id in t.memories && id !in gone ::
         if t.memories[id].supersedes.Some? && t.memories[id].supersedes.value in gone then t.memories[id].(supersedes := None) else t.memories[id])
  }

  /** `confirm_delete`: the targets, and every provisional memory with one of their fingerprints. */
  function ConfirmDelete(t: Tables, owner: Owner, ids: set<Id>): Tables {
    var targets := set id | id in ids && id in t.memories && t.memories[id].owner == owner;
    var prints := set id | id in targets :: t.memories[id].fingerprint;
    var twins := set id | id in t.memories && t.memories[id].owner == owner && t.memories[id].status == Provisional && t.memories[id].fingerprint in prints;
    Bump(DropMemories(t, targets + twins), owner)
  }

  function PruneProvisional(t: Tables, before: int): Tables {
    DropMemories(t, set id | id in t.memories && t.memories[id].status == Provisional && t.memories[id].createdAt < before)
  }

  // ----- Staging controls -----

  /** A control of a turn, with the row its target query finds and the identifier derived for it. */
  datatype Control = Control(id: Id, action: Action, named: Option<Id>, topic: nat, fingerprint: nat, archived: bool, sources: set<Id>, found: Option<Id>)

  predicate Live(status: MemoryStatus) {
    status == Active || status == Archived || status == DisabledByAgent
  }

  /** Rows the target query may return. */
  predicate Matches(t: Tables, owner: Owner, c: Control, id: Id) {
    && id in t.memories && t.memories[id].owner == owner
    && (if c.named.Some? then id == c.named.value
        else c.action != Add && Live(t.memories[id].status) && (if c.action == Upsert then t.memories[id].topic == c.topic else t.memories[id].fingerprint == c.fingerprint))
  }

  predicate FoundRight(t: Tables, owner: Owner, c: Control) {
    match c.found
    case Some(id) => Matches(t, owner, c, id)
    case None => forall id | id in t.memories :: !Matches(t, owner, c, id)
  }

  predicate UserDisabled(t: Tables, owner: Owner, fingerprint: nat) {
    exists id | id in t.memories :: t.memories[id].owner == owner && t.memories[id].fingerprint == fingerprint && t.memories[id].status == DisabledByUser
  }

  predicate Duplicate(t: Tables, owner: Owner, fingerprint: nat) {
    exists id | id in t.memories :: t.memories[id].owner == owner && t.memories[id].fingerprint == fingerprint && (Live(t.memories[id].status) || t.memories[id].status == Provisional)
  }

  /** One turn of the staging loop. */
  function StageOne(t: Tables, owner: Owner, session: nat, gen: Id, c: Control, now: int): Tables {
    if c.named.Some? && c.found.None? then t
    else if UserDisabled(t, owner, c.fingerprint) || (c.found.Some? && c.found.value in t.memories && t.memories[c.found.value].status == DisabledByUser) then t
    else if c.found.None? && Duplicate(t, owner, c.fingerprint) then t
    else if c.id in t.memories then SetMemory(t, c.id, t.memories[c.id].(sources := t.memories[c.id].sources + c.sources))
    else SetMemory(t, c.id, Memory(owner, c.topic, c.fingerprint, Provisional, c.archived, Some(gen), session, Governance(t, owner), c.action, c.found, c.sources, now))
  }

  function StageAll(t: Tables, owner: Owner, session: nat, gen: Id, controls: seq<Control>, now: int): Step<bool>
    decreases |controls|
  {
    if controls == [] then Committed(t, true)
    else if !FoundRight(t, owner, controls[0]) then Aborted
    else StageAll(StageOne(t, owner, session, gen, controls[0], now), owner, session, gen, controls[1..], now)
  }

  /** `stage_memory_controls`. */
  function Stage(t: Tables, owner: Owner, session: nat, gen: Id, governance: nat, controls: seq<Control>, revision: Option<nat>, now: int): Step<bool> {
    if !SettingsOf(t, owner).capture || Governance(t, owner) != governance then Committed(t, false)
    else if revision.Some? && CurrentOf(t, SessionKey(owner, session)) != Some(Current(Generation(gen), revision.value)) then Committed(t, false)
    else StageAll(t, owner, session, gen, controls, now)
  }

  // ----- Purging a window -----

  predicate InWindow(time: int, start: int, end: int) {
    start <= time < end
  }

  function Seeds(t: Tables, owner: Owner, start: int, end: int): set<Id> {
    set m | m in t.messages && t.messages[m].session.owner == owner && InWindow(t.messages[m].timestamp, start, end)
  }

  /** Messages of one session that share a burst or a generation. */
  predicate Related(a: Message, b: Message) {
    && a.session == b.session
    && ((a.burst.Some? && b.burst == a.burst) || (a.gen.Some? && b.gen == a.gen))
  }

  predicate RelatedTo(t: Tables, found: set<Id>, m: Id) {
    m in t.messages && exists x | x in found :: x in t.messages && Related(t.messages[x], t.messages[m])
  }

  /** Messages not yet found that are related to one that is. */
  function Frontier(t: Tables, found: set<Id>): set<Id> {
    set m | m in t.messages && m !in found && RelatedTo(t, found, m)
  }

  /** The recursive closure query. */
  function Closure(t: Tables, found: set<Id>): set<Id>
    decreases |t.messages.Keys - found|
  {
    var more := Frontier(t, found);
    if more == {} then found
    else
      FewerLeft(t, found, more);
      Closure(t, found + more)
  }

  lemma FewerLeft(t: Tables, found: set<Id>, more: set<Id>)
    requires more != {} && more <= t.messages.Keys && more !! found
    ensures |t.messages.Keys - (found + more)| < |t.messages.Keys - found|
  {
    assert t.messages.Keys - found == (t.messages.Keys - (found + more)) + more;
  }

  /** What a purge removes: messages, their generations, and the references they were known by. */
  datatype Purge = Purge(messages: set<Id>, gens: set<(SessionKey, Id)>, sources: set<(SessionKey, Id)>, memories: set<Id>)

  function PurgedGens(t: Tables, messages: set<Id>): set<(SessionKey, Id)> {
    set m | m in messages && m in t.messages && t.messages[m].gen.Some? :: (t.messages[m].session, t.messages[m].gen.value)
  }

  function PurgedSources(t: Tables, messages: set<Id>): set<(SessionKey, Id)> {
    (set m | m in messages && m in t.messages :: (t.messages[m].session, m))
    + (set m | m in messages && m in t.messages && t.messages[m].connector.Some? :: (t.messages[m].session, t.messages[m].connector.value))
    + PurgedGens(t, messages)
  }

  predicate FromSources(m: Memory, sources: set<(SessionKey, Id)>) {
    exists s | s in sources :: s.0.key == m.session && s.1 in m.sources
  }

  predicate FromGens(m: Memory, gens: set<(SessionKey, Id)>) {
    m.gen.Some? && exists g | g in gens :: g.0.key == m.session && g.1 == m.gen.value
  }

  /** Created in the window, or derived from a purged generation or message. */
  predicate Tainted(m: Memory, owner: Owner, start: int, end: int, gens: set<(SessionKey, Id)>, sources: set<(SessionKey, Id)>) {
    m.owner == owner && (InWindow(m.createdAt, start, end) || FromGens(m, gens) || FromSources(m, sources))
  }

  function PurgeOf(t: Tables, owner: Owner, start: int, end: int): Purge {
    var messages := Closure(t, Seeds(t, owner, start, end));
    var gens, sources := PurgedGens(t, messages), PurgedSources(t, messages);
    Purge(messages, gens, sources, set m | m in t.memories && Tainted(t.memories[m], owner, start, end, gens, sources))
  }

  /** Sessions of purged messages, and of purged memories. */
  function PurgedSessions(t: Tables, owner: Owner, p: Purge): set<SessionKey> {
    set s | s in t.sessions && s.owner == owner &&
      ((exists m | m in p.messages :: m in t.messages && t.messages[m].session == s) || (exists m | m in p.memories :: m in t.memories && t.memories[m].session == s.key))
  }

  function Fenced(current: Option<Current>, owner: Owner, start: int, end: int): Current {
    Current(Purged(owner, start, end), (if current.Some? then current.value.revision else 0) + 1)
  }

  predicate Predecessor(t: Tables, p: Purge, id: Id) {
    id !in p.memories && exists m | m in p.memories :: m in t.memories && t.memories[m].supersedes == Some(id)
  }

  predicate HasChild(t: Tables, id: Id) {
    exists m | m in t.memories :: t.memories[m].supersedes == Some(id)
  }

  /** A surviving predecessor of a purged memory that nothing else supersedes comes back, unless its owner disabled it. */
  function Reactivated(t: Tables, after: Tables, p: Purge, owner: Owner, id: Id): Memory
    requires id in after.memories
  {
    var m := after.memories[id];
    if m.owner == owner && Predecessor(t, p, id) && m.status != DisabledByUser && !HasChild(after, id) then m.(status := Visible(m)) else m
  }

  /** `purge_owner_window`. */
  function PurgeWindow(t: Tables, owner: Owner, start: int, end: int): Step<()> {
    if start >= end then Aborted
    else
      var p := PurgeOf(t, owner, start, end);
      var sessions := PurgedSessions(t, owner, p);
      var t1 := DropMemories(t, p.memories);
      var t2 := t1.(
        sessions := map s | s in t.sessions :: if s in sessions then Some(Fenced(t.sessions[s], owner, start, end)) else t.sessions[s],
        messages := map m | m in t.messages && m !in p.messages :: t.messages[m],
        accepted := t.accepted - p.gens);
      Committed(t2.(memories := map id | id in t2.memories :: Reactivated(t, t2, p, owner, id)), ())
  }
}
