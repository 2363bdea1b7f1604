/** The personal-data tables as they are held: saving, staging and purging, with the loops and working tables. */
module PersonalStore {
  import opened Wrappers
  import opened PersonalData

  ghost predicate Outcome<T(!new)>(before: Tables, step: Step<T>, after: Tables, r: Result<T>) {
    match step
    case Aborted => r == Raised && after == before
    case Committed(t, v) => r == Ok(v) && after == t
  }

  class Repository {
    var sessions: map<SessionKey, Option<Current>>
    var messages: map<Id, Message>
    var accepted: set<(SessionKey, Id)>
    var memories: map<Id, Memory>
    var settings: map<Owner, Settings>

    function State(): Tables
      reads this
    {
      Tables(sessions, messages, accepted, memories, settings)
    }

    constructor ()
      ensures State() == EMPTY
    {
      sessions, messages, accepted, memories, settings := map[], map[], {}, map[], map[];
    }

    method Rollback(saved: Tables)
      modifies this
      ensures State() == saved
    {
      sessions, messages, accepted, memories, settings := saved.sessions, saved.messages, saved.accepted, saved.memories, saved.settings;
    }

    // ----- Saving -----

    /** The loop over the messages of a session. */
    method WriteMessages(rows: seq<(Id, Message)>)
      modifies this`messages
      ensures messages == PutMessages(old(messages), rows)
    {
      for i := 0 to |rows|
        invariant PutMessages(messages, rows[i..]) == PutMessages(old(messages), rows)
      {
        assert rows[i..][0] == rows[i] && rows[i..][1..] == rows[i + 1..];
        var (id, m) := rows[i];
        if id !in messages {
          messages := messages[id := m];
        } else if m.role == Assistant && m.gen.Some? {
          messages := messages[id := messages[id].(timestamp := m.timestamp)];
        }
      }
    }

    method Mark(id: Id, status: MemoryStatus, unlessDisabled: bool)
      modifies this`memories
      ensures State() == if unlessDisabled then SetUnlessDisabled(old(State()), id, status) else SetStatus(old(State()), id, status)
    {
      if id in memories && !(unlessDisabled && memories[id].status == DisabledByUser) {
        memories := memories[id := memories[id].(status := status)];
      }
    }

    /** One provisional memory of a newly accepted generation. */
    method PromoteRow(id: Id, m: Memory)
      modifies this`memories
      ensures State() == Promote(old(State()), id, m)
    {
      hide SetStatus;
      hide SetUnlessDisabled;
      if m.governance != Governance(State(), m.owner) {
        Mark(id, Superseded, false);
        return;
      }
      if m.action == Remove {
        if m.supersedes.Some? {
          Mark(m.supersedes.value, Superseded, false);
        }
        Mark(id, Superseded, false);
      } else if m.action == Archive || m.action == DisableByAgent {
        if m.supersedes.Some? {
          Mark(m.supersedes.value, if m.action == Archive then Archived else DisabledByAgent, true);
        }
        Mark(id, Superseded, false);
      } else {
        if m.action == Upsert && m.supersedes.Some? {
          Mark(m.supersedes.value, Superseded, true);
        }
        Mark(id, if m.archived then Archived else Active, false);
      }
    }

    /** `save_session`. */
    method SaveSession(s: SessionKey, w: Writer, active: bool, rows: seq<(Id, Message)>, requested: set<Id>, provisional: seq<(Id, Memory)>) returns (r: Result<bool>)
      modifies this
      ensures Outcome(old(State()), Save(old(State()), s, w, active, rows, requested, provisional), State(), r)
    {
      hide NewlyAccepted;
      hide ListsPromotable;
      hide PutMessages;
      var saved := State();
      if !active {
        return Ok(false);
      }
      var current := if s in sessions then sessions[s] else None;
      if w == Unversioned && current.Some? {
        return Ok(false);
      }
      if w.Versioned? && current.Some? && (w.revision < current.value.revision || (w.revision == current.value.revision && current.value.fence != Generation(w.gen))) {
        return Ok(false);
      }
      if exists i | 0 <= i < |rows| :: rows[i].1.session != s {
        return Raised;
      }
      sessions := sessions[s := if w.Versioned? && (current.None? || w.revision > current.value.revision) then Some(Current(Generation(w.gen), w.revision)) else current];
      WriteMessages(rows);
      ghost var t1 := State();
      assert t1 == SavedMessages(saved, s, w, rows);
      var newly := NewlyAccepted(State(), s, requested);
      if !ListsPromotable(State(), s, newly, provisional) {
        Rollback(saved);
        return Raised;
      }
      accepted := accepted + set g | g in newly :: (s, g);
      ghost var t2 := State();
      for i := 0 to |provisional|
        invariant PromoteAll(State(), provisional[i..]) == PromoteAll(t2, provisional)
      {
        hide Promote;
        assert provisional[i..][0] == provisional[i] && provisional[i..][1..] == provisional[i + 1..];
        PromoteRow(provisional[i].0, provisional[i].1);
      }
      return Ok(true);
    }

    // ----- Staging -----

    /** `stage_memory_controls`. */
    method StageControls(owner: Owner, session: nat, gen: Id, governance: nat, controls: seq<Control>, revision: Option<nat>, now: int) returns (r: Result<bool>)
      modifies this
      ensures Outcome(old(State()), Stage(old(State()), owner, session, gen, governance, controls, revision, now), State(), r)
    {
      var saved := State();
      if !SettingsOf(saved, owner).capture || Governance(saved, owner) != governance {
        return Ok(false);
      }
      if revision.Some? && CurrentOf(saved, SessionKey(owner, session)) != Some(Current(Generation(gen), revision.value)) {
        return Ok(false);
      }
      for i := 0 to |controls|
        invariant StageAll(State(), owner, session, gen, controls[i..], now) == StageAll(saved, owner, session, gen, controls, now)
      {
        hide UserDisabled;
        hide Duplicate;
        hide FoundRight;
        var c := controls[i];
        assert controls[i..][0] == c && controls[i..][1..] == controls[i + 1..];
        if !FoundRight(State(), owner, c) {
          Rollback(saved);
          return Raised;
        }
        if c.named.Some? && c.found.None? {
          continue;
        }
        if UserDisabled(State(), owner, c.fingerprint) || (c.found.Some? && c.found.value in memories && memories[c.found.value].status == DisabledByUser) {
          continue;
        }
        if c.found.None? && Duplicate(State(), owner, c.fingerprint) {
          continue;
        }
        if c.id in memories {
          memories := memories[c.id := memories[c.id].(sources := memories[c.id].sources + c.sources)];
        } else {
          var row := Memory(owner, c.topic, c.fingerprint, Provisional, c.archived, Some(gen), session, Governance(State(), owner), c.action, c.found, c.sources, now);
          memories := memories[c.id := row];
        }
      }
      return Ok(true);
    }

    // ----- Purging -----

    /** The closure query as a worklist: add what is related to what was found, until nothing is. */
    method PurgedMessages(owner: Owner, start: int, end: int) returns (found: set<Id>)
      ensures found == PurgeOf(State(), owner, start, end).messages
    {
      found := Seeds(State(), owner, start, end);
      var more := Frontier(State(), found);
      while more != {}
        invariant more == Frontier(State(), found)
        invariant Closure(State(), found) == PurgeOf(State(), owner, start, end).messages
        decreases |messages.Keys - found|
      {
        FewerLeft(State(), found, more);
        hide Frontier;
        found := found + more;
        more := Frontier(State(), found);
      }
    }

    /** `purge_owner_window`: fill the working tables, then fence, delete and bring predecessors back. */
    method Purge(owner: Owner, start: int, end: int) returns (r: Result<()>)
      modifies this
      ensures Outcome(old(State()), PurgeWindow(old(State()), owner, start, end), State(), r)
    {
      if start >= end {
        return Raised;
      }
      var before := State();
      var purgedMessages := PurgedMessages(owner, start, end);
      var gens := PurgedGens(before, purgedMessages);
      var sources := PurgedSources(before, purgedMessages);
      var purgedMemories := set m | m in memories && Tainted(memories[m], owner, start, end, gens, sources);
      var p := PersonalData.Purge(purgedMessages, gens, sources, purgedMemories);
      assert p == PurgeOf(before, owner, start, end);
      hide PurgeOf;
      var hit := PurgedSessions(before, owner, p);
      accepted := accepted - gens;
      sessions := map s | s in sessions :: if s in hit then Some(Fenced(sessions[s], owner, start, end)) else sessions[s];
      messages := map m | m in messages && m !in purgedMessages :: messages[m];
      memories := DropMemories(State(), purgedMemories).memories;
      var after := State();
      hide PurgedSessions;
      memories := map id | id in memories :: Reactivated(before, after, p, owner, id);
      return Ok(());
    }
  }
}
