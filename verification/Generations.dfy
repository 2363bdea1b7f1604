/** Chat turns: messages gather in a burst, a burst is handed to one generation at a time, and newer input
    supersedes it. The tables, and each store call as one transaction over them. */
module Generations {
  import opened Wrappers

  const MICROS := 1_000_000

  type Chat = nat
  type UpdateId = int
  type RunId = nat

  /** A burst is named by the chat and its first update, or after the automation generation it stands for. */
  datatype Burst = Inbound(chat: Chat, first: UpdateId) | AutoBurst(run: RunId, revision: nat)

  datatype GenId = Interactive(burst: Burst, revision: nat, attempt: nat) | Automation(run: RunId, revision: nat)

  datatype Kind = Message | Control
  datatype InboxStatus = Pending | Processing | Completed
  datatype GenStatus = Active | Superseded | Done | Failed
  datatype EventStatus = Reserved | Sent | Unknown | Suppressed

  datatype Update = Update(chat: Chat, kind: Kind, status: InboxStatus, attempts: nat, availableAt: int, burst: Option<Burst>)

  datatype Turn = Turn(burst: Option<Burst>, revision: nat, quietUntil: int, active: Option<GenId>)

  datatype Gen = Gen(burst: Burst, chat: Chat, revision: nat, status: GenStatus, cleanup: bool)

  /** A visible frame of a generation, named by its generation and sequence. */
  datatype Slot = Slot(gen: GenId, sequence: nat)

  datatype Store = Store(
    inbox: map<UpdateId, Update>, turns: map<Chat, Turn>, gens: map<GenId, Gen>,
    inputs: map<GenId, seq<UpdateId>>, events: map<Slot, EventStatus>)

  const EMPTY := Store(map[], map[], map[], map[], map[])

  datatype Step<+T> = Aborted | Committed(store: Store, value: T)

  function After<T>(s: Store, step: Step<T>): Store {
    if step.Committed? then step.store else s
  }

  // ----- Revisions -----

  function Revisions(s: Store, chat: Chat): set<nat> {
    set g | g in s.gens && s.gens[g].chat == chat :: s.gens[g].revision
  }

  ghost function AnyOf<T(!new)>(values: set<T>): (v: T)
    requires values != {}
    ensures v in values
  {
    var v :| v in values;
    v
  }

  /** `coalesce(max(revision), 0)`. */
  ghost function Greatest(values: set<nat>): (m: nat)
    ensures forall v | v in values :: v <= m
    ensures values != {} ==> m in values
    ensures values == {} ==> m == 0
    decreases |values|
  {
    if values == {} then 0
    else
      var v: nat := AnyOf(values);
      var rest := Greatest(values - {v});
      assert forall w | w in values :: w == v || w in values - {v};
      if v < rest then rest else v
  }

  function Larger(a: nat, b: nat): nat {
    if a < b then b else a
  }

  /** One more than every revision the chat has used. */
  ghost function NextRevision(s: Store, chat: Chat): nat {
    Larger(Greatest(Revisions(s, chat)), if chat in s.turns then s.turns[chat].revision else 0) + 1
  }

  // ----- Incoming updates -----

  function Retire(g: Gen, status: GenStatus): Gen {
    if g.status == Active then g.(status := status, cleanup := g.cleanup || status == Superseded) else g
  }

  function SetGen(s: Store, id: GenId, row: Gen): Store {
    s.(gens := s.gens[id := row])
  }

  function SetTurn(s: Store, chat: Chat, row: Turn): Store {
    s.(turns := s.turns[chat := row])
  }

  function SupersedeActive(s: Store, chat: Chat): Store {
    if chat in s.turns && s.turns[chat].active.Some? && s.turns[chat].active.value in s.gens
    then SetGen(s, s.turns[chat].active.value, Retire(s.gens[s.turns[chat].active.value], Superseded))
    else s
  }

  /** The chat's turn once another message has arrived. */
  ghost function TurnAfterMessage(s: Store, chat: Chat, update: UpdateId, quiet: int): Turn {
    if chat in s.turns && s.turns[chat].burst.Some?
    then Turn(s.turns[chat].burst, s.turns[chat].revision + 1, quiet, None)
    else Turn(Some(Inbound(chat, update)), NextRevision(s, chat), quiet, None)
  }

  ghost function Enqueue(s: Store, update: UpdateId, chat: Chat, kind: Kind, now: int, debounce: int): Step<bool> {
    if update in s.inbox then Committed(s, false)
    else if kind == Control then Committed(s.(inbox := s.inbox[update := Update(chat, kind, Pending, 0, now, None)]), true)
    else
      var turn := TurnAfterMessage(s, chat, update, now + debounce);
      var s' := SetTurn(SupersedeActive(s, chat), chat, turn);
      Committed(s'.(inbox := s'.inbox[update := Update(chat, kind, Pending, 0, now, turn.burst)]), true)
  }

  // ----- Generations -----

  ghost function ReserveAutomation(s: Store, chat: Chat, run: RunId, now: int): Step<Option<GenId>> {
    if chat in s.turns && (s.turns[chat].burst.Some? || s.turns[chat].active.Some?) then Committed(s, None)
    else
      var revision := NextRevision(s, chat);
      var id := Automation(run, revision);
      if id in s.gens then Aborted
      else
        var s1 := SetGen(s, id, Gen(AutoBurst(run, revision), chat, revision, Active, false));
        var quiet := if chat in s.turns then s.turns[chat].quietUntil else now;
        Committed(SetTurn(s1, chat, Turn(None, revision, quiet, Some(id))), Some(id))
  }

  predicate Claimable(s: Store, chat: Chat, now: int) {
    chat in s.turns && s.turns[chat].burst.Some? && s.turns[chat].active.None? && s.turns[chat].quietUntil <= now
  }

  /** An unfinished message of a burst. */
  predicate Waits(s: Store, update: UpdateId, chat: Chat, burst: Burst) {
    && update in s.inbox && s.inbox[update].chat == chat && s.inbox[update].burst == Some(burst)
    && s.inbox[update].kind == Message && s.inbox[update].status != Completed
  }

  /** `rows` are the unfinished messages of a burst, in the order of their updates. */
  predicate Lists(s: Store, rows: seq<UpdateId>, chat: Chat, burst: Burst) {
    && (forall i, j | 0 <= i < j < |rows| :: rows[i] < rows[j])
    && (forall u | u in rows :: Waits(s, u, chat, burst))
    && (forall u | u in s.inbox && Waits(s, u, chat, burst) :: u in rows)
  }

  function Attempts(s: Store, burst: Burst, revision: nat): nat {
    |set g | g in s.gens && s.gens[g].burst == burst && s.gens[g].revision == revision|
  }

  /** `claim_next_work` for the turn its query returns; `rows` are the messages its second query returns. */
  ghost function ClaimWork(s: Store, chat: Chat, rows: seq<UpdateId>, now: int): Step<Option<GenId>> {
    if !Claimable(s, chat, now) then Committed(s, None)
    else
      var turn := s.turns[chat];
      var burst := turn.burst.value;
      if !Lists(s, rows, chat, burst) then Aborted
      else if rows == [] then Committed(s, None)
      else
        var id := Interactive(burst, turn.revision, Attempts(s, burst, turn.revision) + 1);
        if id in s.gens then Aborted
        else
          var s1 := SetGen(s, id, Gen(burst, chat, turn.revision, Active, false));
          Committed(SetTurn(s1, chat, turn.(active := Some(id))).(inputs := s1.inputs[id := rows]), Some(id))
  }

  predicate Running(s: Store, id: GenId) {
    id in s.gens && s.gens[id].status == Active
  }

  /** Close every update of a burst. */
  function CloseBurst(s: Store, burst: Burst): Store {
    s.(inbox := map u | u in s.inbox :: if s.inbox[u].burst == Some(burst) then s.inbox[u].(status := Completed) else s.inbox[u])
  }

  function HoldsTurn(s: Store, chat: Chat, id: GenId): bool {
    chat in s.turns && s.turns[chat].active == Some(id)
  }

  function CompleteGen(s: Store, id: GenId, revision: nat): Step<bool> {
    if !Running(s, id) || s.gens[id].revision != revision then Committed(s, false)
    else
      var g := s.gens[id];
      var s1 := CloseBurst(SetGen(s, id, Retire(g, Done)), g.burst);
      Committed(if HoldsTurn(s, g.chat, id) then SetTurn(s1, g.chat, s.turns[g.chat].(burst := None, active := None)) else s1, true)
  }

  function BurstAttempts(s: Store, burst: Burst): nat {
    |set g | g in s.gens && s.gens[g].burst == burst|
  }

  function RetryDelay(attempts: nat): nat {
    var delay := PowerOfTwo(if attempts > 0 then attempts - 1 else 0);
    (if delay < 60 then delay else 60) * MICROS
  }

  function FailForGood(s: Store, id: GenId, now: int): Store
    requires id in s.gens
  {
    var g := s.gens[id];
    var s1 := CloseBurst(SetGen(s, id, Retire(g, Failed)), g.burst);
    if HoldsTurn(s, g.chat, id) then SetTurn(s1, g.chat, s.turns[g.chat].(burst := None, active := None, quietUntil := now)) else s1
  }

  function FailForNow(s: Store, id: GenId, least: nat, quiet: int): Store
    requires id in s.gens
  {
    var g := s.gens[id];
    var s1 := SetGen(s, id, Retire(g, Failed));
    if HoldsTurn(s, g.chat, id)
    then SetTurn(s1, g.chat, s.turns[g.chat].(revision := Larger(s.turns[g.chat].revision + 1, least), active := None, quietUntil := quiet))
    else s1
  }

  /** `fail_generation`: a terminal failure closes the burst, any other one reopens it under a later revision. */
  function FailGen(s: Store, id: GenId, maxAttempts: Option<nat>, minimum: Option<nat>, now: int): Step<bool> {
    if !Running(s, id) then Committed(s, false)
    else
      var attempts := BurstAttempts(s, s.gens[id].burst);
      if maxAttempts.Some? && attempts >= maxAttempts.value then Committed(FailForGood(s, id, now), true)
      else
        var quiet := if maxAttempts.Some? then now + RetryDelay(attempts) else now;
        Committed(FailForNow(s, id, if minimum.Some? then minimum.value else 0, quiet), true)
  }

  /** One turn of the recovery loop. */
  function Interrupt(s: Store, id: GenId, now: int): Store {
    if !Running(s, id) then s
    else
      var g := s.gens[id];
      var s1 := SetGen(s, id, Retire(g, Superseded))
                  .(events := map e | e in s.events :: if e.gen == id && s.events[e] == Reserved then Unknown else s.events[e]);
      if HoldsTurn(s, g.chat, id)
      then SetTurn(s1, g.chat, s.turns[g.chat].(revision := s.turns[g.chat].revision + 1, active := None, quietUntil := now))
      else s1
  }

  function InterruptAll(s: Store, rows: seq<GenId>, now: int): Store
    decreases |rows|
  {
    if rows == [] then s else InterruptAll(Interrupt(s, rows[0], now), rows[1..], now)
  }

  /** `recover_interrupted_generations`; `rows` are the generations its query returns. */
  function RecoverGens(s: Store, rows: seq<GenId>, now: int): Step<()> {
    if (forall i | 0 <= i < |rows| :: rows[i] in s.gens) && (forall g | g in s.gens && s.gens[g].status == Active :: g in rows)
    then Committed(InterruptAll(s, rows, now), ())
    else Aborted
  }

  function CleanUp(s: Store, id: GenId): Step<bool> {
    if id in s.gens && s.gens[id].cleanup then Committed(SetGen(s, id, s.gens[id].(cleanup := false)), true) else Committed(s, false)
  }

  // ----- Control updates -----

  predicate ControlReady(s: Store, update: UpdateId, now: int) {
    && update in s.inbox && s.inbox[update].kind == Control && s.inbox[update].status == Pending && s.inbox[update].availableAt <= now
    && (forall u | u in s.inbox && s.inbox[u].chat == s.inbox[update].chat && s.inbox[u].kind == Control ::
          s.inbox[u].status != Processing && (u < update ==> s.inbox[u].status == Completed))
  }

  function SetUpdate(s: Store, update: UpdateId, row: Update): Store {
    s.(inbox := s.inbox[update := row])
  }

  function ClaimControl(s: Store, update: UpdateId, now: int): Step<bool> {
    if !ControlReady(s, update, now) then Committed(s, false)
    else Committed(SetUpdate(s, update, s.inbox[update].(status := Processing, attempts := s.inbox[update].attempts + 1)), true)
  }

  predicate InProgress(s: Store, update: UpdateId) {
    update in s.inbox && s.inbox[update].status == Processing
  }

  function CompleteControl(s: Store, update: UpdateId): Store {
    if InProgress(s, update) then SetUpdate(s, update, s.inbox[update].(status := Completed)) else s
  }

  function ControlDelay(attempts: nat): nat {
    var delay := PowerOfTwo(if attempts > 0 then attempts - 1 else 0);
    (if delay < 300 then delay else 300) * MICROS
  }

  function RetryControl(s: Store, update: UpdateId, now: int): Store {
    if InProgress(s, update)
    then SetUpdate(s, update, s.inbox[update].(status := Pending, availableAt := now + ControlDelay(s.inbox[update].attempts)))
    else s
  }

  function ResetControls(s: Store, now: int): Store {
    s.(inbox := map u | u in s.inbox :: if s.inbox[u].status == Processing then s.inbox[u].(status := Pending, availableAt := now) else s.inbox[u])
  }

  // ----- Visible frames -----

  /** `reserve_delivery`: only the running generation, under its own revision, may put a frame on the wire. */
  function ReserveFrame(s: Store, id: GenId, revision: nat, sequence: nat): Step<bool> {
    if !Running(s, id) || s.gens[id].revision != revision || Slot(id, sequence) in s.events then Committed(s, false)
    else Committed(s.(events := s.events[Slot(id, sequence) := Reserved]), true)
  }

  /** `mark_delivery_sent`, `mark_delivery_unknown` and `mark_delivery_suppressed`. */
  function SettleFrame(s: Store, slot: Slot, status: EventStatus): Step<bool> {
    if slot !in s.events || s.events[slot] != Reserved then Committed(s, false)
    else Committed(s.(events := s.events[slot := status]), true)
  }
}
