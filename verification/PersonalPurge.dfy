/** Purging a window: what goes is the least closed set of messages around it, and nothing that stays derives from it. */
module PersonalPurge {
  import opened Wrappers
  import opened PersonalData

  /** Nothing outside is related to anything inside. */
  ghost predicate ClosedUnder(t: Tables, found: set<Id>) {
    forall m | m in t.messages && RelatedTo(t, found, m) :: m in found
  }

  lemma {:induction false} ClosureGrows(t: Tables, found: set<Id>)
    ensures found <= Closure(t, found)
    decreases |t.messages.Keys - found|
  {
    var more := Frontier(t, found);
    if more != {} {
      FewerLeft(t, found, more);
      ClosureGrows(t, found + more);
    }
  }

  lemma {:induction false} ClosureCloses(t: Tables, found: set<Id>)
    ensures ClosedUnder(t, Closure(t, found))
    decreases |t.messages.Keys - found|
  {
    var more := Frontier(t, found);
    if more != {} {
      FewerLeft(t, found, more);
      ClosureCloses(t, found + more);
    } else {
      assert forall m | m in t.messages && RelatedTo(t, found, m) && m !in found :: m in more;
    }
  }

  lemma {:induction false} ClosureStays(t: Tables, found: set<Id>)
    requires found <= t.messages.Keys
    ensures Closure(t, found) <= t.messages.Keys
    decreases |t.messages.Keys - found|
  {
    var more := Frontier(t, found);
    if more != {} {
      FewerLeft(t, found, more);
      ClosureStays(t, found + more);
    }
  }

  lemma {:induction false} ClosureIsLeast(t: Tables, found: set<Id>, c: set<Id>)
    requires found <= c && ClosedUnder(t, c)
    ensures Closure(t, found) <= c
    decreases |t.messages.Keys - found|
  {
    var more := Frontier(t, found);
    if more != {} {
      FewerLeft(t, found, more);
      forall m | m in more ensures m in c {
        assert RelatedTo(t, c, m) by {
          var x :| x in found && x in t.messages && Related(t.messages[x], t.messages[m]);
          assert x in c;
        }
      }
      ClosureIsLeast(t, found + more, c);
    }
  }

  lemma {:induction false} ClosureKeepsOwner(t: Tables, found: set<Id>, owner: Owner)
    requires found <= t.messages.Keys && forall m | m in found :: t.messages[m].session.owner == owner
    ensures Closure(t, found) <= t.messages.Keys && forall m | m in Closure(t, found) :: t.messages[m].session.owner == owner
    decreases |t.messages.Keys - found|
  {
    var more := Frontier(t, found);
    if more != {} {
      FewerLeft(t, found, more);
      ClosureKeepsOwner(t, found + more, owner);
    }
  }

  /** The purged messages are the least set that holds every message of the owner in the window and, with any
      message, all those of its session that share its burst or its generation; none belongs to another owner. */
  lemma PurgedMessagesAreTheLeastClosedSet(t: Tables, owner: Owner, start: int, end: int)
    ensures var p := PurgeOf(t, owner, start, end).messages;
      && Seeds(t, owner, start, end) <= p <= t.messages.Keys && ClosedUnder(t, p)
      && (forall c | Seeds(t, owner, start, end) <= c && ClosedUnder(t, c) :: p <= c)
      && (forall m | m in p :: t.messages[m].session.owner == owner)
  {
    var seeds := Seeds(t, owner, start, end);
    ClosureGrows(t, seeds);
    ClosureCloses(t, seeds);
    ClosureKeepsOwner(t, seeds, owner);
    hide Closure;
    forall c | seeds <= c && ClosedUnder(t, c) ensures Closure(t, seeds) <= c {
      ClosureIsLeast(t, seeds, c);
    }
    hide ClosedUnder;
  }

  // ----- After the purge -----

  lemma AfterPurge(t: Tables, owner: Owner, start: int, end: int)
    requires start < end
    ensures var t' := After(t, PurgeWindow(t, owner, start, end)); var p := PurgeOf(t, owner, start, end);
      && t'.messages == (map m | m in t.messages && m !in p.messages :: t.messages[m])
      && t'.memories.Keys == t.memories.Keys - p.memories
      && (forall m | m in t'.memories :: var a, b := t.memories[m], t'.memories[m];
            b == a.(status := b.status, supersedes := b.supersedes))
      && t'.accepted == t.accepted - p.gens && t'.settings == t.settings
  {
    hide PurgeOf;
    hide PurgedSessions;
    hide Predecessor;
    hide HasChild;
  }

  /** Afterwards no message of the owner lies in the window, and none shares a burst or generation with a purged one. */
  lemma NoMessageRemains(t: Tables, owner: Owner, start: int, end: int)
    requires start < end
    ensures var t' := After(t, PurgeWindow(t, owner, start, end)); var p := PurgeOf(t, owner, start, end);
      && (forall m | m in t'.messages :: m in t.messages && t'.messages[m] == t.messages[m] && m !in p.messages)
      && (forall m | m in t.messages && m !in p.messages :: m in t'.messages)
      && (forall m | m in t'.messages && t'.messages[m].session.owner == owner :: !InWindow(t'.messages[m].timestamp, start, end))
      && (forall m, x | m in t'.messages && x in p.messages :: x in t.messages ==> !Related(t.messages[x], t'.messages[m]))
  {
    AfterPurge(t, owner, start, end);
    PurgedMessagesAreTheLeastClosedSet(t, owner, start, end);
    var p := PurgeOf(t, owner, start, end);
    hide PurgeWindow;
    hide PurgeOf;
    var t' := After(t, PurgeWindow(t, owner, start, end));
    forall m | m in t'.messages && t'.messages[m].session.owner == owner ensures !InWindow(t'.messages[m].timestamp, start, end) {
      assert InWindow(t'.messages[m].timestamp, start, end) ==> m in Seeds(t, owner, start, end);
    }
    forall m, x | m in t'.messages && x in p.messages && x in t.messages ensures !Related(t.messages[x], t'.messages[m]) {
      assert Related(t.messages[x], t.messages[m]) ==> RelatedTo(t, p.messages, m);
    }
  }

  /** Afterwards no memory of the owner was created in the window, and none derives from a purged message or generation. */
  lemma NoMemoryRemains(t: Tables, owner: Owner, start: int, end: int, m: Id)
    requires start < end
    ensures var t' := After(t, PurgeWindow(t, owner, start, end)); var p := PurgeOf(t, owner, start, end);
      m in t'.memories && t'.memories[m].owner == owner ==>
        && !InWindow(t'.memories[m].createdAt, start, end)
        && (forall x | x in p.messages && x in t.messages && t.messages[x].session.key == t'.memories[m].session ::
              && x !in t'.memories[m].sources
              && (t.messages[x].connector.Some? ==> t.messages[x].connector.value !in t'.memories[m].sources)
              && (t.messages[x].gen.Some? ==> t.messages[x].gen.value !in t'.memories[m].sources && t'.memories[m].gen != t.messages[x].gen))
  {
    AfterPurge(t, owner, start, end);
    var p := PurgeOf(t, owner, start, end);
    var t' := After(t, PurgeWindow(t, owner, start, end));
    hide PurgeWindow;
    if m in t'.memories && t'.memories[m].owner == owner {
      var row := t.memories[m];
      assert m !in p.memories && !Tainted(row, owner, start, end, p.gens, p.sources);
      forall x | x in p.messages && x in t.messages && t.messages[x].session.key == row.session
        ensures x !in row.sources
        ensures t.messages[x].connector.Some? ==> t.messages[x].connector.value !in row.sources
        ensures t.messages[x].gen.Some? ==> t.messages[x].gen.value !in row.sources && row.gen != t.messages[x].gen
      {
        Untainted(t, p, row, x);
      }
    }
    hide PurgeOf;
  }

  lemma Untainted(t: Tables, p: Purge, row: Memory, x: Id)
    requires p.gens == PurgedGens(t, p.messages) && p.sources == PurgedSources(t, p.messages)
    requires !FromGens(row, p.gens) && !FromSources(row, p.sources)
    requires x in p.messages && x in t.messages && t.messages[x].session.key == row.session
    ensures x !in row.sources
    ensures t.messages[x].connector.Some? ==> t.messages[x].connector.value !in row.sources
    ensures t.messages[x].gen.Some? ==> t.messages[x].gen.value !in row.sources && row.gen != t.messages[x].gen
  {
    var s := t.messages[x].session;
    assert (s, x) in p.sources;
    if t.messages[x].connector.Some? {
      assert (s, t.messages[x].connector.value) in p.sources;
    }
    if t.messages[x].gen.Some? {
      assert (s, t.messages[x].gen.value) in p.gens && (s, t.messages[x].gen.value) in p.sources;
    }
  }

  /** Nothing of another owner changes. */
  lemma OthersAreUntouched(t: Tables, owner: Owner, start: int, end: int)
    requires start < end
    requires forall m | m in t.memories && t.memories[m].supersedes.Some? && t.memories[m].supersedes.value in t.memories ::
               t.memories[t.memories[m].supersedes.value].owner == t.memories[m].owner
    ensures var t' := After(t, PurgeWindow(t, owner, start, end));
      && (forall m | m in t.messages && t.messages[m].session.owner != owner :: m in t'.messages && t'.messages[m] == t.messages[m])
      && (forall m | m in t.memories && t.memories[m].owner != owner :: m in t'.memories && t'.memories[m] == t.memories[m])
      && (forall s | s in t.sessions && s.owner != owner :: s in t'.sessions && t'.sessions[s] == t.sessions[s])
  {
    NoMessageRemains(t, owner, start, end);
    PurgedMessagesAreTheLeastClosedSet(t, owner, start, end);
    hide Closure;
    hide Predecessor;
    hide HasChild;
    hide FromGens;
    hide FromSources;
    hide RelatedTo;
    hide Related;
  }

  // ----- What comes back -----

  /** A surviving memory comes back exactly when a purged one replaced it, everything that replaced it was purged,
      and its owner has not disabled it; every other surviving memory keeps its status. */
  lemma PurgeRevivesExactly(t: Tables, owner: Owner, start: int, end: int, id: Id)
    requires start < end && id in t.memories && id !in PurgeOf(t, owner, start, end).memories
    ensures var t' := After(t, PurgeWindow(t, owner, start, end)); var p := PurgeOf(t, owner, start, end); var m := t.memories[id];
            var replaced := exists x | x in t.memories :: t.memories[x].supersedes == Some(id);
            var allPurged := forall x | x in t.memories && t.memories[x].supersedes == Some(id) :: x in p.memories;
      && id in t'.memories
      && t'.memories[id].status == if m.owner == owner && replaced && allPurged && m.status != DisabledByUser then Visible(m) else m.status
  {
    var p := PurgeOf(t, owner, start, end);
    PurgedAreStored(t, owner, start, end);
    hide PurgeOf;
    hide PurgedSessions;
    var after := DropMemories(t, p.memories);
    ChildrenLeft(t, p.memories, id);
    assert Predecessor(t, p, id) <==> exists x | x in p.memories :: x in t.memories && t.memories[x].supersedes == Some(id);
    assert forall x: Tables | x.memories == after.memories :: HasChild(x, id) == HasChild(after, id);
  }

  lemma PurgedAreStored(t: Tables, owner: Owner, start: int, end: int)
    ensures PurgeOf(t, owner, start, end).memories <= t.memories.Keys
  {
  }

  lemma ChildrenLeft(t: Tables, gone: set<Id>, id: Id)
    requires id !in gone
    ensures HasChild(DropMemories(t, gone), id) <==> exists x | x in t.memories :: x !in gone && t.memories[x].supersedes == Some(id)
  {
    var after := DropMemories(t, gone);
    if x :| x in t.memories && x !in gone && t.memories[x].supersedes == Some(id) {
      assert after.memories[x].supersedes == Some(id);
    }
    if x :| x in after.memories && after.memories[x].supersedes == Some(id) {
      assert t.memories[x].supersedes == Some(id);
    }
  }
}
