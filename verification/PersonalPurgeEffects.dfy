/** What purging a window removes, fences and brings back: said of stored columns. */
module PersonalPurgeEffects {
  import opened Wrappers
  import opened PersonalData
  import opened PersonalPurge
  import opened PersonalGovernance
  import opened PersonalSaveEffects

  // ----- Messages -----

  /** One turn: the same session, and the same burst of messages or the same generation. */
  predicate SameTurn(a: Message, b: Message) {
    a.session == b.session && ((a.burst.Some? && a.burst == b.burst) || (a.gen.Some? && a.gen == b.gen))
  }

  predicate OwnedWithin(t: Tables, owner: Owner, start: int, end: int, m: Id) {
    m in t.messages && t.messages[m].session.owner == owner && start <= t.messages[m].timestamp && t.messages[m].timestamp < end
  }

  /** Holds the owner's messages of the window, and with any message all others of its turn. */
  ghost predicate WholeTurns(t: Tables, owner: Owner, start: int, end: int, found: set<Id>) {
    && (forall m | OwnedWithin(t, owner, start, end, m) :: m in found)
    && (forall a, b | a in found && a in t.messages && b in t.messages && SameTurn(t.messages[a], t.messages[b]) :: b in found)
  }

  /** The purged messages are the least such set. */
  lemma PurgedMessagesExactly(t: Tables, owner: Owner, start: int, end: int)
    ensures var p := PurgeOf(t, owner, start, end).messages;
      && p <= t.messages.Keys && WholeTurns(t, owner, start, end, p) && forall c | WholeTurns(t, owner, start, end, c) :: p <= c
  {
    PurgedMessagesAreTheLeastClosedSet(t, owner, start, end);
    var p := PurgeOf(t, owner, start, end).messages;
    hide PurgeOf;
    forall c ensures WholeTurns(t, owner, start, end, c) <==> Seeds(t, owner, start, end) <= c && ClosedUnder(t, c) {
      WholeTurnsClosed(t, owner, start, end, c);
    }
    hide WholeTurns;
    hide ClosedUnder;
    hide Seeds;
  }

  lemma WholeTurnsClosed(t: Tables, owner: Owner, start: int, end: int, c: set<Id>)
    ensures WholeTurns(t, owner, start, end, c) <==> Seeds(t, owner, start, end) <= c && ClosedUnder(t, c)
  {
    forall m ensures m in Seeds(t, owner, start, end) <==> OwnedWithin(t, owner, start, end, m) {}
    hide Seeds;
    hide OwnedWithin;
    forall a: Message, b: Message ensures Related(a, b) <==> SameTurn(a, b) {}
    hide Related;
    hide SameTurn;
    if ClosedUnder(t, c) {
      forall a, b | a in c && a in t.messages && b in t.messages && SameTurn(t.messages[a], t.messages[b]) ensures b in c {
        assert RelatedTo(t, c, b);
      }
    }
  }

  // ----- Memories -----

  /** One of the names a purged message is referred to by. */
  predicate Names(t: Tables, x: Id, name: Id) {
    x in t.messages && (name == x || t.messages[x].connector == Some(name) || t.messages[x].gen == Some(name))
  }

  /** The memory comes from a purged message: its turn staged it, or it is one of its sources. */
  predicate ComesFrom(t: Tables, m: Memory, x: Id) {
    && x in t.messages && t.messages[x].session.key == m.session
    && ((m.gen.Some? && t.messages[x].gen == m.gen) || exists name | name in m.sources :: Names(t, x, name))
  }

  /** Purged memories are the owner's that were created in the window or come from a purged message. */
  lemma PurgedMemoriesExactly(t: Tables, owner: Owner, start: int, end: int, id: Id)
    ensures var p := PurgeOf(t, owner, start, end);
      id in p.memories <==>
        && id in t.memories && t.memories[id].owner == owner
        && ((start <= t.memories[id].createdAt && t.memories[id].createdAt < end) || exists x | x in p.messages :: ComesFrom(t, t.memories[id], x))
  {
    var p := PurgeOf(t, owner, start, end);
    if id in t.memories {
      var m := t.memories[id];
      TaintedBySomeMessage(t, p.messages, m);
      assert id in p.memories <==> Tainted(m, owner, start, end, PurgedGens(t, p.messages), PurgedSources(t, p.messages));
      hide PurgeOf;
      hide FromGens;
      hide FromSources;
      hide PurgedGens;
      hide PurgedSources;
      hide ComesFrom;
    }
  }

  lemma TaintedBySomeMessage(t: Tables, messages: set<Id>, m: Memory)
    ensures FromGens(m, PurgedGens(t, messages)) || FromSources(m, PurgedSources(t, messages)) <==> exists x | x in messages :: ComesFrom(t, m, x)
  {
    var gens, sources := PurgedGens(t, messages), PurgedSources(t, messages);
    if FromGens(m, gens) {
      var g :| g in gens && g.0.key == m.session && g.1 == m.gen.value;
      var x :| x in messages && x in t.messages && t.messages[x].gen.Some? && (t.messages[x].session, t.messages[x].gen.value) == g;
      assert ComesFrom(t, m, x);
    }
    if FromSources(m, sources) {
      var s :| s in sources && s.0.key == m.session && s.1 in m.sources;
      var x := SourceOf(t, messages, s);
      assert Names(t, x, s.1);
      assert ComesFrom(t, m, x);
    }
    if x :| x in messages && ComesFrom(t, m, x) {
      var s := t.messages[x].session;
      if m.gen.Some? && t.messages[x].gen == m.gen {
        assert (s, m.gen.value) in gens;
        assert FromGens(m, gens);
      } else {
        var name :| name in m.sources && Names(t, x, name);
        NameIsSource(t, messages, x, name);
        assert FromSources(m, sources);
      }
    }
  }

  lemma SourceOf(t: Tables, messages: set<Id>, s: (SessionKey, Id)) returns (x: Id)
    requires s in PurgedSources(t, messages)
    ensures x in messages && x in t.messages && t.messages[x].session == s.0 && Names(t, x, s.1)
  {
    if s in PurgedGens(t, messages) {
      x :| x in messages && x in t.messages && t.messages[x].gen.Some? && (t.messages[x].session, t.messages[x].gen.value) == s;
    } else if exists m | m in messages && m in t.messages :: (t.messages[m].session, m) == s {
      x :| x in messages && x in t.messages && (t.messages[x].session, x) == s;
    } else {
      x :| x in messages && x in t.messages && t.messages[x].connector.Some? && (t.messages[x].session, t.messages[x].connector.value) == s;
    }
  }

  lemma NameIsSource(t: Tables, messages: set<Id>, x: Id, name: Id)
    requires x in messages && Names(t, x, name)
    ensures (t.messages[x].session, name) in PurgedSources(t, messages)
  {
    var s := t.messages[x].session;
    if t.messages[x].gen == Some(name) {
      assert (s, name) in PurgedGens(t, messages);
    } else if name == x {
      assert (s, x) in set m | m in messages && m in t.messages :: (t.messages[m].session, m);
    } else {
      assert (s, name) in set m | m in messages && m in t.messages && t.messages[m].connector.Some? :: (t.messages[m].session, t.messages[m].connector.value);
    }
  }

  // ----- The tables afterwards -----

  /** A session of the owner that lost a message, or whose turns staged a memory that was purged. */
  predicate Touched(t: Tables, owner: Owner, p: Purge, s: SessionKey) {
    && s.owner == owner
    && ((exists m | m in p.messages :: m in t.messages && t.messages[m].session == s) || (exists m | m in p.memories :: m in t.memories && t.memories[m].session == s.key))
  }

  /** An empty window raises. Otherwise the purged messages go, and with them the acceptance of their generations; all
      other messages and acceptances stay. */
  lemma PurgeExactly(t: Tables, owner: Owner, start: int, end: int)
    ensures var s := PurgeWindow(t, owner, start, end); var p := PurgeOf(t, owner, start, end);
      if end <= start then s.Aborted?
      else
        && s.Committed? && s.tables.settings == t.settings
        && (forall m :: (m in s.tables.messages <==> m in t.messages && m !in p.messages) && (m in s.tables.messages ==> s.tables.messages[m] == t.messages[m]))
        && (forall k: SessionKey, g: Id :: (k, g) in s.tables.accepted <==>
              (k, g) in t.accepted && !(exists m | m in p.messages :: m in t.messages && t.messages[m].session == k && t.messages[m].gen == Some(g)))
  {
    if start < end {
      AfterPurge(t, owner, start, end);
      hide PurgeWindow;
      var p := PurgeOf(t, owner, start, end);
      assert p.gens == PurgedGens(t, p.messages);
      hide PurgeOf;
      forall k: SessionKey, g: Id ensures (k, g) in p.gens <==> exists m | m in p.messages :: m in t.messages && t.messages[m].session == k && t.messages[m].gen == Some(g) {
        if m :| m in p.messages && m in t.messages && t.messages[m].session == k && t.messages[m].gen == Some(g) {
          assert (t.messages[m].session, t.messages[m].gen.value) == (k, g);
        }
      }
      hide PurgedGens;
      assert PurgeWindow(t, owner, start, end).Committed? by { PurgeCommits(t, owner, start, end); }
    }
  }

  lemma PurgeCommits(t: Tables, owner: Owner, start: int, end: int)
    requires start < end
    ensures PurgeWindow(t, owner, start, end).Committed?
  {
    hide PurgeOf;
    hide PurgedSessions;
    hide Predecessor;
    hide HasChild;
  }

  /** Each session the purge touches is fenced under its next revision, and no other. */
  lemma PurgeFencesExactly(t: Tables, owner: Owner, start: int, end: int)
    requires start < end
    ensures var t' := After(t, PurgeWindow(t, owner, start, end)); var p := PurgeOf(t, owner, start, end);
      && t'.sessions.Keys == t.sessions.Keys
      && forall k | k in t.sessions :: t'.sessions[k] ==
           if Touched(t, owner, p, k) then Some(Current(Purged(owner, start, end), (if t.sessions[k].Some? then t.sessions[k].value.revision else 0) + 1)) else t.sessions[k]
  {
    var p := PurgeOf(t, owner, start, end);
    hide PurgeOf;
    forall k | k in t.sessions ensures k in PurgedSessions(t, owner, p) <==> Touched(t, owner, p, k) {}
    hide PurgedSessions;
    hide Touched;
    hide Predecessor;
    hide HasChild;
  }

  /** The purged memories go; the others keep everything but their status, and no longer refer to one that is gone. */
  lemma PurgeDropsExactly(t: Tables, owner: Owner, start: int, end: int)
    requires start < end
    ensures var t' := After(t, PurgeWindow(t, owner, start, end)); var p := PurgeOf(t, owner, start, end);
      && (forall m :: m in t'.memories <==> m in t.memories && m !in p.memories)
      && (forall m | m in t'.memories :: t'.memories[m] == t.memories[m].(status := t'.memories[m].status,
            supersedes := if t.memories[m].supersedes.Some? && t.memories[m].supersedes.value in p.memories then None else t.memories[m].supersedes))
  {
    hide PurgeOf;
    hide PurgedSessions;
    hide Predecessor;
    hide HasChild;
  }

  /** A surviving memory comes back, shown or archived as it was, exactly when what replaced it was purged, all of it, and
      its owner has not disabled it. */
  lemma RevivalExactly(t: Tables, owner: Owner, start: int, end: int, id: Id)
    requires start < end && id in t.memories && id !in PurgeOf(t, owner, start, end).memories
    ensures var t' := After(t, PurgeWindow(t, owner, start, end)); var p := PurgeOf(t, owner, start, end); var m := t.memories[id];
      && id in t'.memories
      && t'.memories[id].status ==
           if m.owner == owner && !m.status.DisabledByUser? && (exists x | x in t.memories :: t.memories[x].supersedes == Some(id))
              && (forall x | x in t.memories && t.memories[x].supersedes == Some(id) :: x in p.memories)
           then if m.archived then Archived else Active
           else m.status
  {
    PurgeRevivesExactly(t, owner, start, end, id);
    hide PurgeWindow;
    hide PurgeOf;
  }
}
