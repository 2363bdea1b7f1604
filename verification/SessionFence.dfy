/** The revision fence of a session: who may still save after newer generations and purges, and how a stale
    failure gets the next generation of the chat past it. */
module SessionFence {
  import opened Wrappers
  import opened PersonalData
  import opened PersonalPurge
  import opened PersonalGovernance
  import G = Generations
  import GI = GenerationInvariant
  import GH = GenerationHistory
  import GM = GenerationMinimum

  function RevisionOf(t: Tables, s: SessionKey): nat {
    if CurrentOf(t, s).Some? then CurrentOf(t, s).value.revision else 0
  }

  /** The revision of a session never goes back, and a revision belongs to one holder for as long as it lasts. */
  ghost predicate FenceMoves(t: Tables, t': Tables) {
    forall s | CurrentOf(t, s).Some? ::
      && CurrentOf(t', s).Some? && RevisionOf(t, s) <= RevisionOf(t', s)
      && (RevisionOf(t, s) == RevisionOf(t', s) ==> CurrentOf(t', s) == CurrentOf(t, s))
  }

  lemma {:induction false} PromotionKeepsSessions(t: Tables, rows: seq<(Id, Memory)>)
    ensures PromoteAll(t, rows).sessions == t.sessions
    decreases |rows|
  {
    if rows != [] {
      PromoteKeepsSessions(t, rows[0].0, rows[0].1);
      hide Promote;
      PromotionKeepsSessions(Promote(t, rows[0].0, rows[0].1), rows[1..]);
    }
  }

  lemma PromoteKeepsSessions(t: Tables, id: Id, m: Memory)
    ensures Promote(t, id, m).sessions == t.sessions
  {
  }

  lemma {:induction false} StagingKeepsSessions(t: Tables, owner: Owner, session: nat, gen: Id, controls: seq<Control>, now: int)
    ensures After(t, StageAll(t, owner, session, gen, controls, now)).sessions == t.sessions
    decreases |controls|
  {
    hide FoundRight;
    hide UserDisabled;
    hide Duplicate;
    if controls != [] {
      StagingKeepsSessions(StageOne(t, owner, session, gen, controls[0], now), owner, session, gen, controls[1..], now);
    }
  }

  /** What a save does to the session rows. */
  lemma SaveMovesFence(t: Tables, s: SessionKey, w: Writer, active: bool, messages: seq<(Id, Message)>, requested: set<Id>, rows: seq<(Id, Memory)>)
    ensures var r := Save(t, s, w, active, messages, requested, rows);
      && (r.Committed? && r.value ==> active && MaySave(CurrentOf(t, s), w) && r.tables.sessions == t.sessions[s := Saved(CurrentOf(t, s), w)])
      && (r.Committed? && !r.value ==> r.tables == t)
      && (!(active && MaySave(CurrentOf(t, s), w)) ==> r == Committed(t, false))
  {
    var t2 := Accepting(t, s, w, messages, requested);
    PromotionKeepsSessions(t2, rows);
    hide PromoteAll;
    hide NewlyAccepted;
    hide ListsPromotable;
    hide PutMessages;
    hide MaySave;
  }

  lemma SavedMoves(current: Option<Current>, w: Writer)
    requires current.Some? && MaySave(current, w)
    ensures Saved(current, w).Some? && current.value.revision <= Saved(current, w).value.revision
    ensures current.value.revision == Saved(current, w).value.revision ==> Saved(current, w) == current
  {
  }

  lemma PurgeMovesFence(t: Tables, owner: Owner, start: int, end: int)
    requires start < end
    ensures var t' := After(t, PurgeWindow(t, owner, start, end)); var hit := PurgedSessions(t, owner, PurgeOf(t, owner, start, end));
      && t'.sessions.Keys == t.sessions.Keys
      && (forall s | s in t.sessions :: t'.sessions[s] == if s in hit then Some(Fenced(t.sessions[s], owner, start, end)) else t.sessions[s])
  {
    hide PurgeOf;
    hide PurgedSessions;
    hide Predecessor;
    hide HasChild;
  }

  /** No call lets the revision of a session go back, or hands a revision to another holder. */
  lemma ApplyMovesFence(t: Tables, e: Event)
    ensures FenceMoves(t, Apply(t, e))
  {
    match e
    case Saving(s, w, active, messages, requested, rows) =>
      SaveMovesFence(t, s, w, active, messages, requested, rows);
      if CurrentOf(t, s).Some? && MaySave(CurrentOf(t, s), w) {
        SavedMoves(CurrentOf(t, s), w);
      }
      hide Save;
      hide MaySave;
      hide Saved;
    case Staging(owner, key, gen, governance, controls, revision, now) =>
      StagingKeepsSessions(t, owner, key, gen, controls, now);
      hide StageAll;
    case Purging(owner, start, end) =>
      if start < end {
        PurgeMovesFence(t, owner, start, end);
        hide PurgeWindow;
        hide PurgeOf;
        hide PurgedSessions;
      }
    case _ =>
      assert Apply(t, e).sessions == t.sessions;
  }

  lemma FenceMovesTrans(a: Tables, b: Tables, c: Tables)
    requires FenceMoves(a, b) && FenceMoves(b, c)
    ensures FenceMoves(a, c)
  {
  }

  lemma {:induction false} PlayMovesFence(t: Tables, events: seq<Event>)
    requires Governed(t)
    ensures FenceMoves(t, Play(t, events))
    decreases |events|
  {
    hide Governed;
    hide FenceMoves;
    if events == [] {
      StaysPut(t);
    } else {
      ApplyKeeps(t, events[0]);
      ApplyMovesFence(t, events[0]);
      hide Apply;
      PlayMovesFence(Apply(t, events[0]), events[1..]);
      FenceMovesTrans(t, Apply(t, events[0]), Play(t, events));
    }
  }

  lemma StaysPut(t: Tables)
    ensures FenceMoves(t, t)
  {
  }

  /** Once a generation has saved under a revision, an older revision or another generation of the same one never
      saves into that session again, whatever happens in between. */
  lemma OldWritersStayOut(t: Tables, events: seq<Event>, s: SessionKey, w: Writer)
    requires Governed(t) && CurrentOf(t, s).Some? && !MaySave(CurrentOf(t, s), w)
    ensures !MaySave(CurrentOf(Play(t, events), s), w)
  {
    PlayMovesFence(t, events);
    hide Play;
    hide Governed;
  }

  /** After a purge that touched a session, a generation that was running before may save there exactly if its
      revision is larger than the one the purge left. */
  lemma PurgeFencesOut(t: Tables, owner: Owner, start: int, end: int, s: SessionKey, gen: Id, revision: nat)
    requires start < end && s in t.sessions && s in PurgedSessions(t, owner, PurgeOf(t, owner, start, end))
    ensures var t' := After(t, PurgeWindow(t, owner, start, end));
      && RevisionOf(t', s) == RevisionOf(t, s) + 1
      && (MaySave(CurrentOf(t', s), Versioned(gen, revision)) <==> revision > RevisionOf(t, s) + 1)
      && !MaySave(CurrentOf(t', s), Unversioned)
  {
    PurgeMovesFence(t, owner, start, end);
    hide PurgeWindow;
    hide PurgeOf;
    hide PurgedSessions;
  }

  // ----- Getting past the fence -----

  /** A generation found stale at session revision `current` fails with minimum `current + 1`: every later generation
      of the chat, interactive or automation, however it comes about, is above every revision the session had, and
      may save. */
  lemma NextGenerationPassesTheFence(
    s: G.Store, id: G.GenId, maxAttempts: Option<nat>, current: nat, now: int, events: seq<GH.Event>, next: G.GenId,
    t: Tables, session: SessionKey, gen: Id)
    requires GI.Inv(s) && G.Running(s, id)
    requires !(maxAttempts.Some? && G.BurstAttempts(s, s.gens[id].burst) >= maxAttempts.value)
    requires RevisionOf(t, session) <= current
    ensures var s1 := G.After(s, G.FailGen(s, id, maxAttempts, Some(current + 1), now));
      && GI.Inv(s1)
      && var s2 := GH.Play(s1, events);
         next !in s1.gens && next in s2.gens && s2.gens[next].chat == s.gens[id].chat ==>
           MaySave(CurrentOf(t, session), Versioned(gen, s2.gens[next].revision))
  {
    hide *;
    GM.MinimumIsRespected(s, id, maxAttempts, current + 1, now, events, next);
    var s1 := G.After(s, G.FailGen(s, id, maxAttempts, Some(current + 1), now));
    var s2 := GH.Play(s1, events);
    if next in s2.gens && s2.gens[next].revision > RevisionOf(t, session) {
      NewerMaySave(t, session, gen, s2.gens[next].revision);
    }
  }

  lemma NewerMaySave(t: Tables, session: SessionKey, gen: Id, revision: nat)
    requires revision > RevisionOf(t, session)
    ensures MaySave(CurrentOf(t, session), Versioned(gen, revision))
  {
  }

  /** After a terminal failure the same minimum is ignored: whatever starts next in the chat, a message or an
      automation, passes the fence exactly if the failed generation's own revision had already reached the session's. */
  lemma TerminalFailureMayStayFencedOut(
    s: G.Store, id: G.GenId, maxAttempts: nat, t: Tables, session: SessionKey, now: int, between: seq<GH.Event>, e: GH.Event, gen: Id)
    requires GI.Inv(s) && G.Running(s, id) && G.BurstAttempts(s, s.gens[id].burst) >= maxAttempts
    requires GM.Opens(e, s.gens[id].chat) && forall x | x in between :: !GM.Opens(x, s.gens[id].chat)
    requires CurrentOf(t, session).Some? && CurrentOf(t, session).value.fence != Generation(gen)
    ensures var chat := s.gens[id].chat; var minimum := RevisionOf(t, session) + 1;
            var s1 := G.After(s, G.FailGen(s, id, Some(maxAttempts), Some(minimum), now));
      && GI.Inv(s1)
      && var s2 := GH.Play(s1, between); var s3 := GH.Apply(s2, e);
         s3 != s2 ==>
           chat in s3.turns && (MaySave(CurrentOf(t, session), Versioned(gen, s3.turns[chat].revision)) <==> s.gens[id].revision >= RevisionOf(t, session))
  {
    var chat := s.gens[id].chat;
    hide *;
    GM.TerminalFailureIgnoresMinimum(s, id, maxAttempts, RevisionOf(t, session) + 1, now, between, e);
    var s1 := G.After(s, G.FailGen(s, id, Some(maxAttempts), Some(RevisionOf(t, session) + 1), now));
    var s3 := GH.Apply(GH.Play(s1, between), e);
    if chat in s3.turns {
      PassesExactly(t, session, gen, s3.turns[chat].revision);
    }
  }

  lemma PassesExactly(t: Tables, session: SessionKey, gen: Id, revision: nat)
    requires CurrentOf(t, session).Some? && CurrentOf(t, session).value.fence != Generation(gen)
    ensures MaySave(CurrentOf(t, session), Versioned(gen, revision)) <==> revision > RevisionOf(t, session)
  {
  }
}
