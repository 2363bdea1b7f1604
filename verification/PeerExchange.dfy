/** The peer protocol over the store: the policy is asked at submission and at every claim, and a claim only
    leaves with the permissions it was allowed under. */
module PeerExchange {
  import opened Wrappers
  import opened PeerPolicy
  import opened PeerLedger
  import opened PeerInvariant
  import opened PeerHistory
  import opened PeerStore
  import opened PeerEffects

  /** A leased request with the permissions it may be answered under. */
  datatype Claim = Claim(id: Id, token: Id, relationRevision: nat, grantRevisions: map<Owner, nat>, attempts: nat)

  datatype Submission = Superseded | Rejected(reason: Reason) | Unknown | Submitted(id: Id, status: RequestStatus, pending: bool)

  /** What a submission answers about a stored request: its status, and whether a confirmation goes with it. */
  function Receipt(l: Ledger, id: Id): Submission
    requires id in l.entries
  {
    Submitted(id, l.entries[id].status, l.entries[id].confirmation.Some?)
  }

  ghost predicate Known(l: Ledger, r: Request) {
    exists d :: IsCall(l, d, r)
  }

  /** The answer to a call that was stored before: its receipt, or its denial once its source is no longer active. */
  ghost predicate Repeated(l: Ledger, l': Ledger, r: Request, active: bool, answer: Result<Submission>) {
    exists d :: IsCall(l, d, r) && AnsweredAs(l, l', d, active, answer)
  }

  /** The entry was not there before and waits for a confirmation exactly when the policy asked for one. */
  predicate StoredAs(l: Ledger, l': Ledger, id: Id, r: Request, decision: Decision) {
    && id !in l.entries && IsCall(l', id, r) && !decision.Deny?
    && l'.entries[id].status == (if decision.Confirm? then ConfirmationPending else Pending)
    && (l'.entries[id].confirmation.Some? <==> decision.Confirm?)
  }

  /** The claimed request is leased, and the policy allows it under exactly the recorded permissions. */
  ghost predicate Authentic(l: Ledger, c: Claim, now: int) {
    && HoldsRequest(l, c.id, c.token) && l.entries[c.id].request.relation in l.relations
    && DecideNow(l, l.entries[c.id].request, Unleased(l.entries[c.id]), now) == Allow
    && c.relationRevision == l.relations[l.entries[c.id].request.relation].revision
    && c.grantRevisions == GrantRevisions(l, l.entries[c.id].request.relation)
    && c.attempts == l.entries[c.id].attempts
  }

  /** A request that is leased under this token is handed out: its source is active and the policy allows it now. */
  ghost predicate HandedOut(l: Ledger, id: Id, now: int, active: (Owner, Id) -> bool) {
    && id in l.entries && active(l.entries[id].request.sender, l.entries[id].request.generation)
    && DecideNow(l, l.entries[id].request, Unleased(l.entries[id]), now) == Allow
  }

  /** One claim of the store, over all the requests that may be leased. */
  ghost predicate Leases(l: Ledger, l': Ledger, rows: seq<Id>, token: Id, now: int, seconds: int, id: Option<Id>) {
    ListsCandidates(ExpireLeases(l, now), rows, now) && ClaimCandidates(l, rows, now, seconds, token) == Committed(l', id)
  }

  ghost predicate Claims(l: Ledger, l': Ledger, token: Id, now: int, seconds: int, id: Option<Id>) {
    exists rows :: Leases(l, l', rows, token, now, seconds, id)
  }

  /** A claim whose request could not be handed out, and was denied for that. */
  datatype Refusal = Refusal(before: Ledger, rows: seq<Id>, token: Id, leased: Ledger, id: Id, after: Ledger)

  ghost predicate Refused(x: Refusal, now: int, seconds: int, active: (Owner, Id) -> bool) {
    && Leases(x.before, x.leased, x.rows, x.token, now, seconds, Some(x.id)) && !HandedOut(x.leased, x.id, now, active)
    && x.after == After(x.leased, DenyClaim(x.leased, x.id, x.token))
  }

  /** The tables after the first so many refusals. */
  ghost function Through(l: Ledger, refusals: seq<Refusal>, n: nat): Ledger
    requires n <= |refusals|
  {
    if n == 0 then l else refusals[n - 1].after
  }

  /** These refusals lead from one state of the tables to another, one after the other. */
  ghost predicate RefusedInTurn(l: Ledger, l': Ledger, refusals: seq<Refusal>, now: int, seconds: int, active: (Owner, Id) -> bool) {
    && (forall i | 0 <= i < |refusals| :: Refused(refusals[i], now, seconds, active))
    && (forall i | 0 <= i < |refusals| :: refusals[i].before == Through(l, refusals, i))
    && l' == Through(l, refusals, |refusals|)
  }

  /** What a new submission comes to: a stranger's and a refused one leave no trace; otherwise it is inserted into what the
      tables have become, or found there, and answered with its receipt, unless that raises or its source is gone. */
  ghost predicate SubmitsAs(l: Ledger, l1: Ledger, l2: Ledger, id: Id, r: Request, now: int, active: bool, answer: Result<Submission>) {
    if !RelationActive(l, r.relation) then answer == Ok(Unknown) && l2 == l
    else match DecideNow(l, r, Pending, now)
      case Deny(reason) => answer == Ok(Rejected(reason)) && l2 == l
      case decision =>
        var s := Submit(l1, id, r, decision.Confirm?, now);
        if s.Aborted? then answer == Raised && l2 == l1
        else exists d :: IsCall(s.ledger, d, r) && (s.value || d == id) && AnsweredAs(s.ledger, l2, d, active, answer)
  }

  /** The answer about a stored request: its receipt, or its denial once its source is no longer active. */
  ghost predicate AnsweredAs(l: Ledger, l': Ledger, d: Id, active: bool, answer: Result<Submission>)
    requires d in l.entries
  {
    if active then l' == l && answer == Ok(Receipt(l, d)) else l' == After(l, DenySuperseded(l, d)) && answer == Ok(Superseded)
  }

  /** Requests that are not finished. */
  function Unfinished(l: Ledger): set<Id> {
    set id | id in l.entries && !Terminal(l.entries[id].status)
  }

  class Exchange {
    const store: Store
    var nextToken: Id

    ghost predicate Valid()
      reads this, store
    {
      Inv(store.State())
    }

    constructor (store: Store)
      requires Inv(store.State())
      ensures Valid() && this.store == store
    {
      this.store, this.nextToken := store, 0;
    }

    /** A fresh lease token. */
    method NewToken() returns (token: Id)
      modifies this`nextToken
    {
      token := nextToken;
      nextToken := nextToken + 1;
    }

    /** Whatever other processes do through the store meanwhile. */
    method Meanwhile(events: seq<Event>)
      requires Valid()
      modifies store
      ensures Valid() && store.State() == Play(old(store.State()), events)
    {
      hide Inv;
      hide Moves;
      hide Apply;
      ghost var before := store.State();
      for i := 0 to |events|
        invariant Valid() && Play(store.State(), events[i..]) == Play(before, events)
      {
        ApplyKeeps(store.State(), events[i]);
        assert events[i..][0] == events[i] && events[i..][1..] == events[i + 1..];
        store.Rollback(Apply(store.State(), events[i]));
      }
    }

    method ClaimOnce(now: int, seconds: int) returns (r: Result<Option<(Id, RequestStatus)>>, token: Id)
      requires Valid()
      modifies this`nextToken, store
      ensures Valid() && Moves(old(store.State()), store.State()) && store.entries.Keys == old(store.entries.Keys)
      ensures r.Raised? <==> !(1 <= seconds <= 3600)
      ensures r.Ok? && r.value.Some? ==> HoldsRequest(store.State(), r.value.value.0, token) && r.value.value.1 == Unleased(store.State().entries[r.value.value.0])
      ensures r.Ok? ==> Claims(old(store.State()), store.State(), token, now, seconds, if r.value.Some? then Some(r.value.value.0) else None)
    {
      hide Inv;
      hide Moves;
      hide ListsCandidates;
      token := NewToken();
      ghost var before, rows := store.State(), [];
      MovesRefl(before);
      r, rows := store.ClaimNext(now, seconds, token);
      ClaimKeeps(before, rows, now, seconds, token);
      ClaimAddsNothing(before, rows, now, seconds, token);
      hide ClaimCandidates;
      hide ExpireLeases;
      if r.Ok? {
        assert Leases(before, store.State(), rows, token, now, seconds, if r.value.Some? then Some(r.value.value.0) else None);
      }
    }

    method DenyOnce(id: Id, token: Id)
      requires Valid() && HoldsRequest(store.State(), id, token)
      modifies store
      ensures Valid() && Moves(old(store.State()), store.State()) && store.entries.Keys == old(store.entries.Keys)
      ensures id in Unfinished(old(store.State())) && id !in Unfinished(store.State())
      ensures store.State() == After(old(store.State()), DenyClaim(old(store.State()), id, token))
    {
      DenyClaimKeeps(store.State(), id, token);
      hide Inv;
      hide Moves;
      var denied := store.DenyLease(id, token);
    }

    /** `claim`: lease, ask the source and the policy, and deny until a request is allowed or none is left. `refusals` are
        the claims that were denied on the way, and `last` the tables before the claim that decided. */
    method ClaimRequest(now: int, seconds: int, active: (Owner, Id) -> bool) returns (r: Result<Option<Claim>>, ghost refusals: seq<Refusal>, ghost last: Ledger)
      requires Valid()
      modifies this`nextToken, store
      ensures Valid() && Moves(old(store.State()), store.State())
      ensures r.Raised? <==> !(1 <= seconds <= 3600)
      ensures RefusedInTurn(old(store.State()), last, refusals, now, seconds, active)
      ensures r == Ok(None) ==> exists token :: Claims(last, store.State(), token, now, seconds, None)
      ensures r.Ok? && r.value.Some? ==>
        && Authentic(store.State(), r.value.value, now) && HandedOut(store.State(), r.value.value.id, now, active)
        && Claims(last, store.State(), r.value.value.token, now, seconds, Some(r.value.value.id))
    {
      hide Inv;
      hide Moves;
      hide Decide;
      hide Leases;
      ghost var before := store.State();
      refusals, last := [], before;
      var candidate, token := ClaimOnce(now, seconds);
      while candidate.Ok? && candidate.value.Some?
        invariant Valid() && Moves(before, store.State())
        invariant candidate.Raised? <==> !(1 <= seconds <= 3600)
        invariant RefusedInTurn(before, last, refusals, now, seconds, active)
        invariant candidate.Ok? ==> Claims(last, store.State(), token, now, seconds, if candidate.value.Some? then Some(candidate.value.value.0) else None)
        invariant candidate.Ok? && candidate.value.Some? ==>
          HoldsRequest(store.State(), candidate.value.value.0, token) && candidate.value.value.1 == Unleased(store.State().entries[candidate.value.value.0])
        decreases |Unfinished(store.State())|
      {
        hide RefusedInTurn;
        var id := candidate.value.value.0;
        var e := store.entries[id];
        if active(e.request.sender, e.request.generation) && DecideNow(store.State(), e.request, candidate.value.value.1, now) == Allow {
          LeasedIsKnown(store.State(), id);
          return Ok(Some(Claim(id, token, store.relations[e.request.relation].revision, GrantRevisions(store.State(), e.request.relation), e.attempts))), refusals, last;
        }
        ghost var l1 := store.State();
        ghost var rows :| Leases(last, l1, rows, token, now, seconds, Some(id));
        DenyOnce(id, token);
        ghost var l2 := store.State();
        MovesTrans(before, l1, l2);
        OneMoreRefusal(before, last, refusals, Refusal(last, rows, token, l1, id, l2), now, seconds, active);
        refusals, last := refusals + [Refusal(last, rows, token, l1, id, l2)], l2;
        candidate, token := ClaimOnce(now, seconds);
        MovesTrans(before, l2, store.State());
        FewerUnfinished(l1, l2, store.State(), id);
      }
      return if candidate.Raised? then Raised else Ok(None), refusals, last;
    }

    /** `_finish`: a claim is answered exactly while its source is active and the store takes the answer, which it does
        under the permissions the claim left with; whatever else happens, nothing changes. */
    method Answer(owner: Owner, c: Claim, frames: seq<string>, failed: bool, now: int, active: (Owner, Id) -> bool) returns (accepted: bool)
      requires Valid()
      modifies store
      ensures Valid() && Moves(old(store.State()), store.State())
      ensures accepted <==>
        && Deliverable(frames) && HasLease(old(store.State()), c.id, c.token, now)
        && active(old(store.State()).entries[c.id].request.sender, old(store.State()).entries[c.id].request.generation)
        && old(store.State()).entries[c.id].request.recipient == owner && old(store.State()).entries[c.id].response.None?
        && StillPermitted(old(store.State()), c.id, c.relationRevision, c.grantRevisions, now)
      ensures accepted ==> store.State() == old(store.State()).(entries := old(store.State()).entries[c.id :=
        old(store.State()).entries[c.id].(status := if failed then Failed else Completed, token := None, until := None, response := Some(Response(owner, frames, failed)))])
      ensures !accepted ==> store.State() == old(store.State())
    {
      MovesRefl(store.State());
      FinishKeeps(store.State(), owner, c.id, c.token, frames, c.relationRevision, c.grantRevisions, failed, now);
      AnswerExactly(store.State(), owner, c.id, c.token, frames, c.relationRevision, c.grantRevisions, failed, now);
      hide Inv;
      hide Moves;
      hide Finish;
      hide Deliverable;
      hide StillPermitted;
      if c.id !in store.entries || !active(store.entries[c.id].request.sender, store.entries[c.id].request.generation) {
        return false;
      }
      var r := store.FinishLease(owner, c.id, c.token, frames, c.relationRevision, c.grantRevisions, failed, now);
      return r == Ok(true);
    }

    /** `submit`, for a request the screening already classified. A call that was stored before is answered without
        asking the policy again. Otherwise the policy is asked on what is stored at that time, others may change it
        before the request is inserted, and the source is asked again afterwards. */
    method SubmitRequest(id: Id, r: Request, now: int, between: seq<Event>, activeBefore: bool, activeAfter: bool) returns (answer: Result<Submission>)
      requires Valid()
      modifies store
      ensures Valid() && Moves(old(store.State()), store.State())
      ensures !activeBefore ==> answer == Ok(Superseded) && store.State() == old(store.State())
      ensures activeBefore && Known(old(store.State()), r) ==> Repeated(old(store.State()), store.State(), r, activeAfter, answer)
      ensures activeBefore && !Known(old(store.State()), r) ==>
        SubmitsAs(old(store.State()), Play(old(store.State()), between), store.State(), id, r, now, activeAfter, answer)
      ensures activeBefore && !Known(old(store.State()), r) && answer.Ok? && answer.value.Submitted? ==>
        var l1 := Play(old(store.State()), between); var l2 := store.State();
        if Known(l1, r) then Repeated(l1, l2, r, true, answer)
        else StoredAs(l1, l2, id, r, DecideNow(old(store.State()), r, Pending, now)) && answer == Ok(Receipt(l2, id))
    {
      hide Inv;
      hide Moves;
      hide Decide;
      hide Play;
      hide Submit;
      ghost var before := store.State();
      MovesRefl(before);
      if !activeBefore {
        return Ok(Superseded);
      }
      var known := store.FindCall(r);
      if known.Some? {
        if !activeAfter {
          SupersedingKeeps(before, known.value);
          var denied := store.Deny(known.value);
          return Ok(Superseded);
        }
        return Ok(Receipt(store.State(), known.value));
      }
      if !RelationActive(store.State(), r.relation) {
        return Ok(Unknown);
      }
      var decision := DecideNow(store.State(), r, Pending, now);
      if decision.Deny? {
        return Ok(Rejected(decision.reason));
      }
      Meanwhile(between);
      ghost var l1 := store.State();
      SubmitKeeps(l1, id, r, decision.Confirm?, now);
      SubmitStores(l1, id, r, decision.Confirm?, now);
      var saved := store.Add(id, r, decision.Confirm?, now);
      ghost var l2 := store.State();
      MovesTrans(before, l1, l2);
      if saved.Raised? {
        return Raised;
      }
      if !activeAfter {
        SupersedingKeeps(l2, saved.value.0);
        var denied := store.Deny(saved.value.0);
        MovesTrans(before, l2, store.State());
        return Ok(Superseded);
      }
      return Ok(Receipt(store.State(), saved.value.0));
    }
  }

  lemma OneMoreRefusal(l: Ledger, l': Ledger, refusals: seq<Refusal>, x: Refusal, now: int, seconds: int, active: (Owner, Id) -> bool)
    requires RefusedInTurn(l, l', refusals, now, seconds, active) && Refused(x, now, seconds, active) && x.before == l'
    ensures RefusedInTurn(l, x.after, refusals + [x], now, seconds, active)
  {
    hide Refused;
    var all := refusals + [x];
    assert forall i | 0 <= i < |refusals| :: all[i] == refusals[i];
    assert all[|refusals|] == x;
    forall i | 0 <= i < |all| ensures all[i].before == Through(l, all, i) {
      assert Through(l, all, i) == Through(l, refusals, i);
    }
  }

  /** A submission adds its entry exactly when the call is not known, with a confirmation exactly when asked to. */
  lemma SubmitStores(l: Ledger, id: Id, r: Request, confirm: bool, now: int)
    ensures var s := Submit(l, id, r, confirm, now);
      && (Known(l, r) ==> s == Committed(l, true))
      && (!Known(l, r) && s.Committed? ==> !s.value && StoredAs(l, s.ledger, id, r, if confirm then Confirm else Allow))
  {
    assert Known(l, r) <==> exists d | d in l.entries :: SameCall(l.entries[d].request, r) by {
      if d :| IsCall(l, d, r) {
      }
      if d :| d in l.entries && SameCall(l.entries[d].request, r) {
        assert IsCall(l, d, r);
      }
    }
    hide RequestsSince;
  }

  lemma LeasedIsKnown(l: Ledger, id: Id)
    requires Inv(l) && id in l.entries
    ensures l.entries[id].request.relation in l.relations
  {
    assert RequestRefs(l, l.entries[id].request);
  }

  lemma {:induction false} PickAddsNothing(l: Ledger, rows: seq<Id>, now: int, seconds: int, token: Id)
    ensures After(l, PickRequest(l, rows, now, seconds, token)).entries.Keys == l.entries.Keys
    decreases |rows|
  {
    if rows != [] && rows[0] in l.entries {
      PickAddsNothing(SetEntry(l, rows[0], l.entries[rows[0]].(status := Denied)), rows[1..], now, seconds, token);
    }
  }

  lemma ClaimAddsNothing(l: Ledger, rows: seq<Id>, now: int, seconds: int, token: Id)
    ensures After(l, ClaimCandidates(l, rows, now, seconds, token)).entries.Keys == l.entries.Keys
  {
    PickAddsNothing(ExpireLeases(l, now), rows, now, seconds, token);
    hide PickRequest;
  }

  /** A denial leaves fewer unfinished requests, and nothing finished ever reopens. */
  lemma FewerUnfinished(l1: Ledger, l2: Ledger, l3: Ledger, id: Id)
    requires Moves(l1, l2) && Moves(l2, l3) && l3.entries.Keys == l2.entries.Keys == l1.entries.Keys
    requires id in Unfinished(l1) && id !in Unfinished(l2)
    ensures |Unfinished(l3)| < |Unfinished(l1)|
  {
    forall p | p in Unfinished(l3) ensures p in Unfinished(l1) - {id} {
      assert EntryStep(l1.entries[p], l2.entries[p]) && EntryStep(l2.entries[p], l3.entries[p]);
    }
    Subsets(Unfinished(l3), Unfinished(l1) - {id});
  }
}
