/** Two histories from empty tables at whose end content its owner disabled is shown. */
module PersonalExamples {
  import opened Wrappers
  import opened PersonalData
  import opened PersonalPurge
  import opened PersonalGovernance
  import opened PersonalLoopholes

  const CHAT := SessionKey(1, 1)

  /** The assistant message of a generation. */
  function Reply(gen: Id, at: int): Message {
    Message(CHAT, Assistant, None, Some(gen), None, at)
  }

  /** The tables once a generation saved its reply under its own revision and was accepted, memories aside. */
  function Accepted(t: Tables, gen: Id, id: Id, at: int): Tables {
    t.(sessions := t.sessions[CHAT := Some(Current(Generation(gen), gen))], messages := t.messages[id := Reply(gen, at)], accepted := t.accepted + {(CHAT, gen)})
  }

  // ----- The calls of the histories -----

  lemma Stages(t: Tables, gen: Id, c: Control, now: int, governance: nat, m: Memory)
    requires SettingsOf(t, 1).capture && Governance(t, 1) == governance && FoundRight(t, 1, c) && (c.named.Some? ==> c.found.Some?)
    requires !UserDisabled(t, 1, c.fingerprint) && (c.found.Some? ==> c.found.value in t.memories && t.memories[c.found.value].status != DisabledByUser)
    requires c.found.None? ==> !Duplicate(t, 1, c.fingerprint)
    requires c.id !in t.memories
    requires m == Memory(1, c.topic, c.fingerprint, Provisional, c.archived, Some(gen), 1, governance, c.action, c.found, c.sources, now)
    ensures Leads(t, Staging(1, 1, gen, governance, [c], None, now), t.(memories := t.memories[c.id := m]))
  {
    hide FoundRight;
    hide UserDisabled;
    hide Duplicate;
    assert [c][1..] == [];
    assert StageAll(t, 1, 1, gen, [c], now) == Committed(t.(memories := t.memories[c.id := m]), true);
  }

  function SavingReply(gen: Id, id: Id, at: int, row: Id, m: Memory): Event {
    Saving(CHAT, Versioned(gen, gen), true, [(id, Reply(gen, at))], {gen}, [(row, m)])
  }

  lemma Accepts(t: Tables, gen: Id, id: Id, at: int)
    requires (CurrentOf(t, CHAT).Some? ==> CurrentOf(t, CHAT).value.revision < gen) && id !in t.messages && (CHAT, gen) !in t.accepted
    ensures MaySave(CurrentOf(t, CHAT), Versioned(gen, gen))
    ensures NewlyAccepted(SavedMessages(t, CHAT, Versioned(gen, gen), [(id, Reply(gen, at))]), CHAT, {gen}) == {gen}
    ensures Accepting(t, CHAT, Versioned(gen, gen), [(id, Reply(gen, at))], {gen}) == Accepted(t, gen, id, at)
  {
    var rows := [(id, Reply(gen, at))];
    assert rows[1..] == [];
    assert PutMessages(t.messages, rows) == t.messages[id := Reply(gen, at)];
    var t1 := SavedMessages(t, CHAT, Versioned(gen, gen), rows);
    assert id in t1.messages && t1.messages[id] == Reply(gen, at);
    assert gen in NewlyAccepted(t1, CHAT, {gen});
    assert (set g | g in {gen} :: (CHAT, g)) == {(CHAT, gen)};
  }

  lemma Saves(t: Tables, gen: Id, id: Id, at: int, row: Id, m: Memory, t': Tables)
    requires (CurrentOf(t, CHAT).Some? ==> CurrentOf(t, CHAT).value.revision < gen) && id !in t.messages && (CHAT, gen) !in t.accepted
    requires row in t.memories && t.memories[row] == m && m.owner == 1 && m.status == Provisional && m.session == 1 && m.gen == Some(gen)
    requires forall x | x in t.memories && x != row :: t.memories[x].status != Provisional || t.memories[x].gen != Some(gen)
    requires t' == Promote(Accepted(t, gen, id, at), row, m)
    ensures Leads(t, SavingReply(gen, id, at, row, m), t')
  {
    var w, messages, rows := Versioned(gen, gen), [(id, Reply(gen, at))], [(row, m)];
    var t1 := SavedMessages(t, CHAT, w, messages);
    Accepts(t, gen, id, at);
    assert t1.memories == t.memories;
    assert ListsPromotable(t1, CHAT, {gen}, rows) by {
      forall x | x in t1.memories && Promotable(t1, CHAT, {gen}, x) ensures exists i | 0 <= i < |rows| :: rows[i].0 == x {
        assert rows[0].0 == x;
      }
    }
    assert rows[1..] == [];
    assert PromoteAll(Accepted(t, gen, id, at), rows) == t';
    hide Promote;
    hide PromoteAll;
    hide ListsPromotable;
    hide NewlyAccepted;
    hide SavedMessages;
    hide MaySave;
  }

  lemma Disables(t: Tables, id: Id, memories: map<Id, Memory>)
    requires id in t.memories && t.memories[id].owner == 1 && t.settings == map[]
    requires memories == t.memories[id := t.memories[id].(status := DisabledByUser)]
    ensures Leads(t, Disabling(1, {id}), t.(memories := memories, settings := map[1 := Settings(true, 1)]))
  {
    assert Owns(t, 1, {id});
    assert (map x | x in t.memories :: if x in {id} then t.memories[x].(status := DisabledByUser) else t.memories[x]) == memories;
  }

  lemma FiveSteps(t: Tables, a: Event, ta: Tables, b: Event, tb: Tables, c: Event, tc: Tables, d: Event, td: Tables, e: Event, te: Tables)
    requires Governed(t) && Leads(t, a, ta) && Leads(ta, b, tb) && Leads(tb, c, tc) && Leads(tc, d, td) && Leads(td, e, te)
    ensures Play(t, [a, b, c, d, e]) == te
  {
    hide *;
    PlayPath(t, [a, b, c, d, e], [t, ta, tb, tc, td, te]);
  }

  lemma SevenSteps(
    t: Tables, a: Event, ta: Tables, b: Event, tb: Tables, c: Event, tc: Tables, d: Event, td: Tables, e: Event, te: Tables, f: Event, tf: Tables, g: Event, tg: Tables)
    requires Governed(t) && Leads(t, a, ta) && Leads(ta, b, tb) && Leads(tb, c, tc) && Leads(tc, d, td) && Leads(td, e, te) && Leads(te, f, tf) && Leads(tf, g, tg)
    ensures Play(t, [a, b, c, d, e, f, g]) == tg
  {
    hide *;
    PlayPath(t, [a, b, c, d, e, f, g], [t, ta, tb, tc, td, te, tf, tg]);
  }

  // ----- Archiving -----

  /** A note, the same note again as a replacement, and a request to archive that replacement. */
  const NOTE := Memory(1, 5, 7, Provisional, false, Some(1), 1, 0, Add, None, {}, 0)
  const AGAIN := Memory(1, 5, 7, Provisional, false, Some(2), 1, 0, Upsert, Some(10), {}, 2)
  const ARCHIVING := Memory(1, 6, 9, Provisional, false, Some(3), 1, 1, Archive, Some(11), {}, 6)

  const NOTED := EMPTY.(memories := map[10 := NOTE])
  const NOTE_ACTIVE := Accepted(NOTED, 1, 101, 0).(memories := map[10 := NOTE.(status := Active)])
  const NOTED_AGAIN := NOTE_ACTIVE.(memories := map[10 := NOTE.(status := Active), 11 := AGAIN])
  const NOTE_DISABLED := NOTED_AGAIN.(memories := map[10 := NOTE.(status := DisabledByUser), 11 := AGAIN], settings := map[1 := Settings(true, 1)])
  const ARCHIVE_ASKED := NOTE_DISABLED.(memories := map[10 := NOTE.(status := DisabledByUser), 11 := AGAIN, 12 := ARCHIVING])

  const STAGING_NOTE := Staging(1, 1, 1, 0, [Control(10, Add, None, 5, 7, false, {}, None)], None, 0)

  const ARCHIVE_HISTORY: seq<Event> := [
    STAGING_NOTE, SavingReply(1, 101, 0, 10, NOTE),
    Staging(1, 1, 2, 0, [Control(11, Upsert, None, 5, 7, false, {}, Some(10))], None, 2),
    Disabling(1, {10}),
    Staging(1, 1, 3, 1, [Control(12, Archive, Some(11), 6, 9, false, {}, Some(11))], None, 6)]

  lemma NoteIsStaged()
    ensures Leads(EMPTY, STAGING_NOTE, NOTED)
  {
    Stages(EMPTY, 1, Control(10, Add, None, 5, 7, false, {}, None), 0, 0, NOTE);
    assert EMPTY.memories[10 := NOTE] == map[10 := NOTE];
  }

  lemma NoteIsSaved()
    ensures Leads(NOTED, SavingReply(1, 101, 0, 10, NOTE), NOTE_ACTIVE)
  {
    assert Promote(Accepted(NOTED, 1, 101, 0), 10, NOTE) == NOTE_ACTIVE by {
      assert NOTED.memories[10 := NOTE.(status := Active)] == map[10 := NOTE.(status := Active)];
    }
    hide Promote;
    hide Accepted;
    Saves(NOTED, 1, 101, 0, 10, NOTE, NOTE_ACTIVE);
  }

  lemma NoteIsStagedAgain()
    ensures Leads(NOTE_ACTIVE, Staging(1, 1, 2, 0, [Control(11, Upsert, None, 5, 7, false, {}, Some(10))], None, 2), NOTED_AGAIN)
  {
    assert NOTE_ACTIVE.memories[11 := AGAIN] == map[10 := NOTE.(status := Active), 11 := AGAIN];
    hide Accepted;
    Stages(NOTE_ACTIVE, 2, Control(11, Upsert, None, 5, 7, false, {}, Some(10)), 2, 0, AGAIN);
  }

  lemma NoteIsDisabled()
    ensures Leads(NOTED_AGAIN, Disabling(1, {10}), NOTE_DISABLED)
  {
    var memories := map[10 := NOTE.(status := DisabledByUser), 11 := AGAIN];
    assert NOTED_AGAIN.memories[10 := NOTE.(status := DisabledByUser)] == memories;
    Disables(NOTED_AGAIN, 10, memories);
  }

  lemma ArchiveIsAsked()
    ensures Leads(NOTE_DISABLED, Staging(1, 1, 3, 1, [Control(12, Archive, Some(11), 6, 9, false, {}, Some(11))], None, 6), ARCHIVE_ASKED)
  {
    assert NOTE_DISABLED.memories[12 := ARCHIVING] == map[10 := NOTE.(status := DisabledByUser), 11 := AGAIN, 12 := ARCHIVING];
    hide Accepted;
    Stages(NOTE_DISABLED, 3, Control(12, Archive, Some(11), 6, 9, false, {}, Some(11)), 6, 1, ARCHIVING);
  }

  lemma ArchiveHistoryLeads()
    ensures Governed(EMPTY) && Play(EMPTY, ARCHIVE_HISTORY) == ARCHIVE_ASKED
  {
    assert Governed(EMPTY);
    hide *;
    NoteIsStaged();
    NoteIsSaved();
    NoteIsStagedAgain();
    NoteIsDisabled();
    ArchiveIsAsked();
    var h := ARCHIVE_HISTORY;
    FiveSteps(EMPTY, h[0], NOTED, h[1], NOTE_ACTIVE, h[2], NOTED_AGAIN, h[3], NOTE_DISABLED, h[4], ARCHIVE_ASKED);
    assert h == [h[0], h[1], h[2], h[3], h[4]];
  }

  /** Note something, stage it again, disable the note, and archive what was staged: accepting that shows its content in
      the archive although it is disabled. */
  lemma ArchivingMayShowDisabledContent()
    ensures Governed(EMPTY)
    ensures var t := Play(EMPTY, ARCHIVE_HISTORY);
      && 11 in t.memories && t.memories[11].status == Provisional && UserDisabled(t, 1, t.memories[11].fingerprint)
      && ShowsDisabled(Apply(t, SavingReply(3, 103, 6, 12, ARCHIVING)), 11)
  {
    ArchiveHistoryLeads();
    ArchiveIsShown();
    hide *;
  }

  lemma ArchiveIsShown()
    ensures var t := ARCHIVE_ASKED;
      && 11 in t.memories && t.memories[11].status == Provisional && UserDisabled(t, 1, t.memories[11].fingerprint)
      && ShowsDisabled(Apply(t, SavingReply(3, 103, 6, 12, ARCHIVING)), 11)
  {
    var t := ARCHIVE_ASKED;
    var t1 := Accepted(t, 3, 103, 6);
    assert t1.memories == t.memories && t1.settings == t.settings;
    ArchiveReply(t);
    ArchiveTakesEffect(t);
    ArchiveTakesEffect(t1);
    hide *;
  }

  lemma ArchiveReply(t: Tables)
    requires t == ARCHIVE_ASKED
    ensures Apply(t, SavingReply(3, 103, 6, 12, ARCHIVING)) == Promote(Accepted(t, 3, 103, 6), 12, ARCHIVING)
  {
    hide Promote;
    Saves(t, 3, 103, 6, 12, ARCHIVING, Promote(Accepted(t, 3, 103, 6), 12, ARCHIVING));
    hide Apply;
  }

  lemma ArchiveTakesEffect(t: Tables)
    requires t.memories == map[10 := NOTE.(status := DisabledByUser), 11 := AGAIN, 12 := ARCHIVING] && t.settings == map[1 := Settings(true, 1)]
    ensures 11 in t.memories && t.memories[11].status == Provisional && UserDisabled(t, 1, t.memories[11].fingerprint)
    ensures ShowsDisabled(Promote(t, 12, ARCHIVING), 11)
  {
    var t' := Promote(t, 12, ARCHIVING);
    assert t.memories[10].status == DisabledByUser && UserDisabled(t, 1, 7);
    assert t'.memories[10] == t.memories[10] && t'.memories[11].status == Archived;
    hide Promote;
    assert UserDisabled(t', 1, 7);
  }

  // ----- Purging -----

  /** What replaces the note, and the note once more. */
  const NEWER := Memory(1, 5, 8, Provisional, false, Some(2), 1, 0, Upsert, Some(10), {}, 4)
  const REPEATED := Memory(1, 5, 7, Provisional, false, Some(3), 1, 0, Add, None, {}, 6)

  const NEWER_STAGED := NOTE_ACTIVE.(memories := map[10 := NOTE.(status := Active), 11 := NEWER])
  const REPLACED := Accepted(NEWER_STAGED, 2, 102, 9).(memories := map[10 := NOTE.(status := Superseded), 11 := NEWER.(status := Active)])
  const REPEAT_STAGED := REPLACED.(memories := map[10 := NOTE.(status := Superseded), 11 := NEWER.(status := Active), 12 := REPEATED])
  const REPEATED_ACTIVE := Accepted(REPEAT_STAGED, 3, 103, 9).(memories := map[10 := NOTE.(status := Superseded), 11 := NEWER.(status := Active), 12 := REPEATED.(status := Active)])
  const REPEATED_DISABLED := REPEATED_ACTIVE.(
    memories := map[10 := NOTE.(status := Superseded), 11 := NEWER.(status := Active), 12 := REPEATED.(status := DisabledByUser)],
    settings := map[1 := Settings(true, 1)])

  const PURGE_HISTORY: seq<Event> := [
    STAGING_NOTE, SavingReply(1, 101, 0, 10, NOTE),
    Staging(1, 1, 2, 0, [Control(11, Upsert, None, 5, 8, false, {}, Some(10))], None, 4), SavingReply(2, 102, 9, 11, NEWER),
    Staging(1, 1, 3, 0, [Control(12, Add, None, 5, 7, false, {}, None)], None, 6), SavingReply(3, 103, 9, 12, REPEATED),
    Disabling(1, {12})]

  lemma NewerIsStaged()
    ensures Leads(NOTE_ACTIVE, Staging(1, 1, 2, 0, [Control(11, Upsert, None, 5, 8, false, {}, Some(10))], None, 4), NEWER_STAGED)
  {
    assert NOTE_ACTIVE.memories[11 := NEWER] == map[10 := NOTE.(status := Active), 11 := NEWER];
    hide Accepted;
    Stages(NOTE_ACTIVE, 2, Control(11, Upsert, None, 5, 8, false, {}, Some(10)), 4, 0, NEWER);
  }

  lemma NoteIsReplaced()
    ensures Leads(NEWER_STAGED, SavingReply(2, 102, 9, 11, NEWER), REPLACED)
  {
    var t := Accepted(NEWER_STAGED, 2, 102, 9);
    assert Promote(t, 11, NEWER) == REPLACED by {
      assert t.memories[10 := NOTE.(status := Superseded)][11 := NEWER.(status := Active)] == REPLACED.memories;
    }
    hide Promote;
    Saves(NEWER_STAGED, 2, 102, 9, 11, NEWER, REPLACED);
  }

  lemma RepeatIsStaged()
    ensures Leads(REPLACED, Staging(1, 1, 3, 0, [Control(12, Add, None, 5, 7, false, {}, None)], None, 6), REPEAT_STAGED)
  {
    assert REPLACED.memories[12 := REPEATED] == REPEAT_STAGED.memories;
    hide Accepted;
    Stages(REPLACED, 3, Control(12, Add, None, 5, 7, false, {}, None), 6, 0, REPEATED);
  }

  lemma RepeatIsSaved()
    ensures Leads(REPEAT_STAGED, SavingReply(3, 103, 9, 12, REPEATED), REPEATED_ACTIVE)
  {
    var t := Accepted(REPEAT_STAGED, 3, 103, 9);
    assert Promote(t, 12, REPEATED) == REPEATED_ACTIVE by {
      assert t.memories[12 := REPEATED.(status := Active)] == REPEATED_ACTIVE.memories;
    }
    hide Promote;
    Saves(REPEAT_STAGED, 3, 103, 9, 12, REPEATED, REPEATED_ACTIVE);
  }

  lemma RepeatIsDisabled()
    ensures Leads(REPEATED_ACTIVE, Disabling(1, {12}), REPEATED_DISABLED)
  {
    assert REPEATED_ACTIVE.memories[12 := REPEATED.(status := DisabledByUser)] == REPEATED_DISABLED.memories;
    Disables(REPEATED_ACTIVE, 12, REPEATED_DISABLED.memories);
  }

  lemma PurgeHistoryLeads()
    ensures Governed(EMPTY) && Play(EMPTY, PURGE_HISTORY) == REPEATED_DISABLED
  {
    assert Governed(EMPTY);
    hide *;
    NoteIsStaged();
    NoteIsSaved();
    NewerIsStaged();
    NoteIsReplaced();
    RepeatIsStaged();
    RepeatIsSaved();
    RepeatIsDisabled();
    var h := PURGE_HISTORY;
    SevenSteps(EMPTY, h[0], NOTED, h[1], NOTE_ACTIVE, h[2], NEWER_STAGED, h[3], REPLACED, h[4], REPEAT_STAGED, h[5], REPEATED_ACTIVE, h[6], REPEATED_DISABLED);
    assert h == [h[0], h[1], h[2], h[3], h[4], h[5], h[6]];
  }

  /** Nothing was said while the replacement was noted. */
  predicate RepeatDisabled(t: Tables) {
    && t.memories == map[10 := NOTE.(status := Superseded), 11 := NEWER.(status := Active), 12 := REPEATED.(status := DisabledByUser)]
    && forall m | m in t.messages :: !InWindow(t.messages[m].timestamp, 3, 5)
  }

  lemma OnlyTheNewerIsPurged(t: Tables)
    requires RepeatDisabled(t)
    ensures PurgeOf(t, 1, 3, 5).memories == {11}
  {
    assert Seeds(t, 1, 3, 5) == {};
    assert Frontier(t, {}) == {};
    assert Closure(t, {}) == {};
    assert PurgedGens(t, {}) == {} && PurgedSources(t, {}) == {};
    hide Closure;
    hide Seeds;
    hide PurgedSources;
    hide PurgedGens;
  }

  /** Note something, replace it, note it once more and disable that: purging the time of the replacement brings the
      first note back although its content is disabled. */
  lemma PurgeMayShowDisabledContent()
    ensures Governed(EMPTY)
    ensures var t := Play(EMPTY, PURGE_HISTORY);
      && 10 in t.memories && t.memories[10].status == Superseded && UserDisabled(t, 1, t.memories[10].fingerprint)
      && ShowsDisabled(Apply(t, Purging(1, 3, 5)), 10)
  {
    PurgeHistoryLeads();
    NoteIsRevived();
    hide *;
  }

  lemma NoteIsRevived()
    ensures var t := REPEATED_DISABLED;
      && 10 in t.memories && t.memories[10].status == Superseded && UserDisabled(t, 1, t.memories[10].fingerprint)
      && ShowsDisabled(Apply(t, Purging(1, 3, 5)), 10)
  {
    assert RepeatDisabled(REPEATED_DISABLED);
    Revives(REPEATED_DISABLED);
    hide *;
  }

  lemma RepeatIsTwin(t: Tables)
    requires RepeatDisabled(t)
    ensures 10 in t.memories && t.memories[10].status == Superseded && t.memories[10].owner == 1 && t.memories[10].fingerprint == 7
    ensures Twin(t, 1, 7, 12) && UserDisabled(t, 1, 7)
  {
    assert t.memories[12].status == DisabledByUser;
  }

  lemma NoteWasReplaced(t: Tables)
    requires RepeatDisabled(t) && PurgeOf(t, 1, 3, 5).memories == {11}
    ensures 10 in t.memories && Revived(t, 1, 3, 5, 10)
  {
    hide PurgeOf;
    assert t.memories[11].supersedes == Some(10);
  }

  lemma PurgingApplies(t: Tables)
    ensures Apply(t, Purging(1, 3, 5)) == After(t, PurgeWindow(t, 1, 3, 5))
  {
    hide PurgeWindow;
  }

  lemma Revives(t: Tables)
    requires RepeatDisabled(t)
    ensures 10 in t.memories && t.memories[10].status == Superseded && UserDisabled(t, 1, t.memories[10].fingerprint)
    ensures ShowsDisabled(Apply(t, Purging(1, 3, 5)), 10)
  {
    assert !Shown(Superseded);
    hide *;
    OnlyTheNewerIsPurged(t);
    RepeatIsTwin(t);
    NoteWasReplaced(t);
    PurgingApplies(t);
    PurgeShowsDisabledExactly(t, 1, 3, 5, 10);
  }
}
