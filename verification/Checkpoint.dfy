/** The two checkpoint slots: a snapshot is written next to the newest one, so that a crash never costs it; a scrub
    overwrites both. A slot is missing, torn (its digest does not match) or valid; what is written is integral. */
module Checkpoint {
  import opened Wrappers

  type Snapshot = nat

  datatype Slot = Absent | Torn | Valid(generation: nat, snapshot: Snapshot)

  datatype Disk = Disk(first: Slot, second: Slot)

  function SlotAt(d: Disk, index: nat): Slot
    requires index < 2
  {
    if index == 0 then d.first else d.second
  }

  function WithSlot(d: Disk, index: nat, s: Slot): Disk
    requires index < 2
  {
    if index == 0 then Disk(s, d.second) else Disk(d.first, s)
  }

  function GenerationOf(s: Slot): nat {
    if s.Valid? then s.generation else 0
  }

  /** The slot holding the newest valid snapshot, if there is one. */
  function Newest(d: Disk): Option<nat> {
    if d.first.Valid? && (!d.second.Valid? || d.first.generation >= d.second.generation) then Some(0)
    else if d.second.Valid? then Some(1)
    else None
  }

  /** `_newest_checkpoint`: the newest valid snapshot; nothing when no slot exists; otherwise a raise. */
  function Recover(d: Disk): Result<Option<Snapshot>> {
    match Newest(d)
    case Some(i) => Ok(Some(SlotAt(d, i).snapshot))
    case None => if d.first == Absent && d.second == Absent then Ok(None) else Raised
  }

  function MaxGeneration(d: Disk): nat {
    if GenerationOf(d.first) < GenerationOf(d.second) then GenerationOf(d.second) else GenerationOf(d.first)
  }

  /** The slot an ordinary checkpoint overwrites. */
  function Target(d: Disk): (index: nat)
    ensures index < 2
  {
    match Newest(d)
    case Some(i) => if i == 0 then 1 else 0
    case None => 0
  }

  /** The disk while a slot is being rewritten: truncated or partly written, then complete. */
  function Rewrite(d: Disk, index: nat, generation: nat, snapshot: Snapshot): seq<Disk>
    requires index < 2
  {
    [WithSlot(d, index, Torn), WithSlot(d, index, Valid(generation, snapshot))]
  }

  /** Every disk an ordinary checkpoint passes through after the one it starts from. */
  function OrdinaryTrace(d: Disk, snapshot: Snapshot): seq<Disk> {
    Rewrite(d, Target(d), MaxGeneration(d) + 1, snapshot)
  }

  /** Every disk a scrub passes through after the one it starts from. */
  function ScrubTrace(d: Disk, snapshot: Snapshot): seq<Disk> {
    var first := Rewrite(d, 0, MaxGeneration(d) + 1, snapshot);
    first + Rewrite(first[1], 1, MaxGeneration(d) + 2, snapshot)
  }

  function Trace(d: Disk, snapshot: Snapshot, scrub: bool): seq<Disk> {
    if scrub then ScrubTrace(d, snapshot) else OrdinaryTrace(d, snapshot)
  }

  function Last(trace: seq<Disk>): Disk
    requires trace != []
  {
    trace[|trace| - 1]
  }

  /** Two valid slots never carry the same generation, and none carries zero. */
  predicate Sound(d: Disk) {
    && (d.first.Valid? && d.second.Valid? ==> d.first.generation != d.second.generation)
    && (d.first.Valid? ==> d.first.generation > 0) && (d.second.Valid? ==> d.second.generation > 0)
  }

  // ----- What is recovered, and what is written where -----

  ghost predicate Holds(d: Disk, generation: nat, snapshot: Snapshot) {
    d.first == Valid(generation, snapshot) || d.second == Valid(generation, snapshot)
  }

  ghost predicate InUse(d: Disk, generation: nat) {
    exists s: Snapshot :: Holds(d, generation, s)
  }

  /** Recovery returns the valid snapshot with the largest generation; with no valid slot it raises, unless there never
      was one. */
  lemma RecoversExactly(d: Disk, snapshot: Snapshot)
    requires Sound(d)
    ensures Recover(d) == Ok(Some(snapshot)) <==> exists g: nat :: Holds(d, g, snapshot) && forall h: nat, s | Holds(d, h, s) :: h <= g
    ensures Recover(d) == Ok(None) <==> d.first.Absent? && d.second.Absent?
    ensures Recover(d).Raised? <==> !d.first.Valid? && !d.second.Valid? && (d.first.Torn? || d.second.Torn?)
  {
    if Recover(d) == Ok(Some(snapshot)) {
      var g := if Newest(d) == Some(0) then d.first.generation else d.second.generation;
      assert Holds(d, g, snapshot);
    }
    assert d.first.Valid? ==> Holds(d, d.first.generation, d.first.snapshot);
    assert d.second.Valid? ==> Holds(d, d.second.generation, d.second.snapshot);
  }

  /** A finished checkpoint is numbered one above all valid slots; an ordinary one takes the slot that does not hold the
      newest snapshot, the first one of an empty disk, and a scrub takes both in turn. */
  lemma WritesExactly(d: Disk, snapshot: Snapshot)
    requires Sound(d)
    ensures var d' := Last(OrdinaryTrace(d, snapshot)); var s := Last(ScrubTrace(d, snapshot));
      exists g: nat ::
        && (forall h: nat | InUse(d, h) :: h < g) && g >= 1 && (g == 1 || InUse(d, g - 1))
        && d' == (if d.first.Valid? && (!d.second.Valid? || d.second.generation < d.first.generation) then Disk(d.first, Valid(g, snapshot)) else Disk(Valid(g, snapshot), d.second))
        && s == Disk(Valid(g, snapshot), Valid(g + 1, snapshot))
  {
    var g := MaxGeneration(d) + 1;
    if d.first.Valid? || d.second.Valid? {
      var x := if d.first.Valid? && d.first.generation == g - 1 then d.first.snapshot else d.second.snapshot;
      assert Holds(d, g - 1, x);
    } else {
      assert g == 1;
    }
    assert forall h: nat | InUse(d, h) :: h < g;
  }

  // ----- Ordinary checkpoints -----

  /** A crash at any point of an ordinary checkpoint: recovery returns the snapshot it would have returned before,
      or, once the new one is complete, that one. */
  lemma OrdinaryCrashLosesNothing(d: Disk, snapshot: Snapshot, crash: nat)
    requires Sound(d) && crash < |OrdinaryTrace(d, snapshot)|
    ensures var d' := OrdinaryTrace(d, snapshot)[crash];
      && Sound(d')
      && (crash == 1 ==> Recover(d') == Ok(Some(snapshot)))
      && (crash == 0 ==> Recover(d') == if Recover(d) == Ok(None) then Raised else Recover(d))
  {
  }

  /** Generations strictly increase: a new snapshot is numbered above every valid one before it. */
  lemma GenerationsIncrease(d: Disk, snapshot: Snapshot, scrub: bool, i: nat, index: nat)
    requires Sound(d) && i < |Trace(d, snapshot, scrub)| && index < 2
    ensures var before := if i == 0 then d else Trace(d, snapshot, scrub)[i - 1]; var after := Trace(d, snapshot, scrub)[i];
      && Sound(after)
      && (SlotAt(after, index).Valid? && SlotAt(after, index) != SlotAt(before, index) ==>
            SlotAt(after, index).generation > MaxGeneration(d) && SlotAt(after, index).generation > MaxGeneration(before))
  {
  }

  // ----- Scrubs -----

  /** A finished scrub leaves both slots holding only the snapshot taken after the deletion. */
  lemma FinishedScrubHoldsOnlyTheNew(d: Disk, snapshot: Snapshot)
    ensures var d' := Last(ScrubTrace(d, snapshot));
      && d'.first.Valid? && d'.first.snapshot == snapshot && d'.second.Valid? && d'.second.snapshot == snapshot
      && Sound(d') && Recover(d') == Ok(Some(snapshot))
  {
  }

  /** A crash while the first slot is being scrubbed keeps what recovery would return exactly when that was not the
      snapshot in the first slot, or the second slot holds the same; every later crash recovers the new snapshot. */
  lemma ScrubCrash(d: Disk, snapshot: Snapshot, crash: nat)
    requires Sound(d) && crash < |ScrubTrace(d, snapshot)|
    ensures var d' := ScrubTrace(d, snapshot)[crash];
      && (crash >= 1 ==> Recover(d') == Ok(Some(snapshot)))
      && (crash == 0 ==> (Recover(d') == Recover(d) <==>
            Newest(d) == Some(1) || (d.first.Valid? && d.second.Valid? && d.first.snapshot == d.second.snapshot) || (d.first == Torn && !d.second.Valid?)
            || (d.first == Absent && d.second == Torn)))
  {
  }

  // ----- Histories of checkpoints and scrubs, each of which may crash -----

  /** One attempt and how far it got: `reached` disks of its trace were passed through. From the second one on the new
      snapshot is valid in a slot. */
  datatype Attempt = Attempt(snapshot: Snapshot, scrub: bool, reached: nat)

  function Try(d: Disk, a: Attempt): Disk {
    var trace := Trace(d, a.snapshot, a.scrub);
    if a.reached == 0 then d else if a.reached < |trace| then trace[a.reached - 1] else Last(trace)
  }

  function Tries(d: Disk, attempts: seq<Attempt>): Disk
    decreases |attempts|
  {
    if attempts == [] then d else Tries(Try(d, attempts[0]), attempts[1..])
  }

  /** A scrub that crashes in the first slot while the newest snapshot sits there. */
  predicate TearsNewest(d: Disk, a: Attempt) {
    a.scrub && a.reached == 1 && Newest(d) == Some(0)
  }

  /** What recovery returns after an attempt: what it took once it is valid; what the second slot holds if a scrub tore
      the newest snapshot; and otherwise what it returned before, save that it raises once a first attempt was cut
      short. */
  function Returned(d: Disk, a: Attempt): Result<Option<Snapshot>> {
    if a.reached >= 2 then Ok(Some(a.snapshot))
    else if TearsNewest(d, a) then if d.second.Valid? then Ok(Some(d.second.snapshot)) else Raised
    else if a.reached == 1 && Recover(d) == Ok(None) then Raised
    else Recover(d)
  }

  lemma AttemptReturns(d: Disk, a: Attempt)
    requires Sound(d)
    ensures Sound(Try(d, a)) && Recover(Try(d, a)) == Returned(d, a)
  {
  }

  /** The attempts that decide what recovery returns. */
  predicate Settles(d: Disk, a: Attempt) {
    a.reached >= 2 || TearsNewest(d, a)
  }

  predicate NoneSettles(d: Disk, attempts: seq<Attempt>)
    decreases |attempts|
  {
    attempts == [] || (!Settles(d, attempts[0]) && NoneSettles(Try(d, attempts[0]), attempts[1..]))
  }

  /** Through attempts none of which settles recovery returns what it did, save that a first attempt cut short makes it
      raise. */
  lemma {:induction false} UnsettledKeeps(d: Disk, attempts: seq<Attempt>)
    requires Sound(d) && NoneSettles(d, attempts)
    ensures Sound(Tries(d, attempts))
    ensures Recover(Tries(d, attempts)) ==
      if Recover(d) == Ok(None) && (exists i :: 0 <= i < |attempts| && attempts[i].reached > 0) then Raised else Recover(d)
    decreases |attempts|
  {
    if attempts != [] {
      var a, rest := attempts[0], attempts[1..];
      AttemptReturns(d, a);
      hide Try;
      hide Sound;
      hide Recover;
      UnsettledKeeps(Try(d, a), rest);
      assert forall i | 0 <= i < |rest| :: rest[i] == attempts[i + 1];
      if i :| 0 <= i < |attempts| && attempts[i].reached > 0 {
        assert i > 0 ==> rest[i - 1].reached > 0;
      }
    }
  }

  lemma {:induction false} TriesAppend(d: Disk, a: seq<Attempt>, b: seq<Attempt>)
    ensures Tries(d, a + b) == Tries(Tries(d, a), b)
    decreases |a|
  {
    hide Try;
    if a == [] {
      assert a + b == b;
    } else {
      assert (a + b)[1..] == a[1..] + b && (a + b)[0] == a[0];
      TriesAppend(Try(d, a[0]), a[1..], b);
    }
  }

  lemma {:induction false} TriesSound(d: Disk, attempts: seq<Attempt>)
    requires Sound(d)
    ensures Sound(Tries(d, attempts))
    decreases |attempts|
  {
    if attempts != [] {
      AttemptReturns(d, attempts[0]);
      hide Try;
      hide Sound;
      TriesSound(Try(d, attempts[0]), attempts[1..]);
    }
  }

  /** Through any number of checkpoints and scrubs, each completed or crashed at any point, recovery returns exactly
      what the last attempt that settles it says. */
  lemma RecoveryReturnsExactly(d: Disk, before: seq<Attempt>, a: Attempt, after: seq<Attempt>)
    requires Sound(d) && Settles(Tries(d, before), a) && NoneSettles(Try(Tries(d, before), a), after)
    ensures Recover(Tries(d, before + [a] + after)) == Returned(Tries(d, before), a)
  {
    var e := Tries(d, before);
    TriesSound(d, before);
    AttemptReturns(e, a);
    UnsettledKeeps(Try(e, a), after);
    TriesAppend(d, before + [a], after);
    TriesAppend(d, before, [a]);
    assert [a][1..] == [];
    assert Tries(e, [a]) == Try(e, a);
    hide Try;
    hide Sound;
    hide Recover;
    hide NoneSettles;
  }

  /** The last snapshot that was taken, or the one there was before. */
  function LastCompleted(attempts: seq<Attempt>, before: Snapshot): Snapshot
    decreases |attempts|
  {
    if attempts == [] then before else LastCompleted(attempts[1..], if attempts[0].reached >= 2 then attempts[0].snapshot else before)
  }

  predicate NeverTears(d: Disk, attempts: seq<Attempt>)
    decreases |attempts|
  {
    attempts == [] || (!TearsNewest(d, attempts[0]) && NeverTears(Try(d, attempts[0]), attempts[1..]))
  }

  /** Ordinary checkpoints never tear the newest snapshot, wherever they crash. */
  lemma {:induction false} OrdinaryNeverTears(d: Disk, attempts: seq<Attempt>)
    requires forall i | 0 <= i < |attempts| :: !attempts[i].scrub
    ensures NeverTears(d, attempts)
    decreases |attempts|
  {
    hide Try;
    if attempts != [] {
      OrdinaryNeverTears(Try(d, attempts[0]), attempts[1..]);
    }
  }

  /** Unless a scrub tears the newest snapshot, recovery returns exactly the snapshot of the last attempt that took one. */
  lemma {:induction false} CompletedCheckpointsAreDurable(d: Disk, attempts: seq<Attempt>, q: Snapshot)
    requires Sound(d) && Recover(d) == Ok(Some(q)) && NeverTears(d, attempts)
    ensures Recover(Tries(d, attempts)) == Ok(Some(LastCompleted(attempts, q)))
    decreases |attempts|
  {
    if attempts != [] {
      var a := attempts[0];
      AttemptReturns(d, a);
      hide Try;
      hide Sound;
      hide Recover;
      CompletedCheckpointsAreDurable(Try(d, a), attempts[1..], if a.reached >= 2 then a.snapshot else q);
    }
  }

  /** The snapshot the disk starts from, and those taken since. */
  function Taken(attempts: seq<Attempt>, before: set<Snapshot>): set<Snapshot>
    decreases |attempts|
  {
    if attempts == [] then before else Taken(attempts[1..], if attempts[0].reached >= 2 then before + {attempts[0].snapshot} else before)
  }

  /** Something was ever written, and every valid slot holds one of these. */
  predicate OnlyHolds(d: Disk, snapshots: set<Snapshot>) {
    && !(d.first == Absent && d.second == Absent)
    && (d.first.Valid? ==> d.first.snapshot in snapshots) && (d.second.Valid? ==> d.second.snapshot in snapshots)
  }

  lemma AttemptHolds(d: Disk, a: Attempt, snapshots: set<Snapshot>)
    requires OnlyHolds(d, snapshots)
    ensures OnlyHolds(Try(d, a), if a.reached >= 2 then snapshots + {a.snapshot} else snapshots)
  {
  }

  lemma {:induction false} TriesHold(d: Disk, attempts: seq<Attempt>, snapshots: set<Snapshot>)
    requires OnlyHolds(d, snapshots)
    ensures OnlyHolds(Tries(d, attempts), Taken(attempts, snapshots))
    decreases |attempts|
  {
    if attempts != [] {
      AttemptHolds(d, attempts[0], snapshots);
      hide Try;
      hide OnlyHolds;
      TriesHold(Try(d, attempts[0]), attempts[1..], if attempts[0].reached >= 2 then snapshots + {attempts[0].snapshot} else snapshots);
    }
  }

  /** After a finished scrub nothing from before the deletion can come back, whatever later checkpoints and scrubs do and
      wherever they crash; and unless a later scrub tears the newest snapshot, recovery returns the last one taken. */
  lemma DeletedStaysDeleted(d: Disk, snapshot: Snapshot, attempts: seq<Attempt>)
    requires Sound(d)
    ensures var clean := Last(ScrubTrace(d, snapshot)); var r := Recover(Tries(clean, attempts));
      && (r.Ok? ==> r.value.Some? && r.value.value in Taken(attempts, {snapshot}))
      && (NeverTears(clean, attempts) ==> r == Ok(Some(LastCompleted(attempts, snapshot))))
  {
    var clean := Last(ScrubTrace(d, snapshot));
    FinishedScrubHoldsOnlyTheNew(d, snapshot);
    TriesHold(clean, attempts, {snapshot});
    if NeverTears(clean, attempts) {
      CompletedCheckpointsAreDurable(clean, attempts, snapshot);
    }
    hide Tries;
    hide Taken;
    hide NeverTears;
    hide LastCompleted;
    hide ScrubTrace;
  }

  /** The newest snapshot can be lost: after three completed checkpoints of an empty disk it sits in the first slot and
      an older one in the second, and a scrub that crashes right away leaves recovery with the older one. */
  lemma ScrubMayLoseTheNewest()
    ensures var attempts := [Attempt(10, false, 2), Attempt(20, false, 2), Attempt(30, false, 2)]; var d := Tries(Disk(Absent, Absent), attempts);
      Sound(d) && Recover(d) == Ok(Some(30)) && Recover(ScrubTrace(d, 40)[0]) == Ok(Some(20))
  {
    var d1 := Disk(Valid(1, 10), Absent);
    var d2 := Disk(Valid(1, 10), Valid(2, 20));
    var d3 := Disk(Valid(3, 30), Valid(2, 20));
    var a1, a2, a3 := Attempt(10, false, 2), Attempt(20, false, 2), Attempt(30, false, 2);
    assert Try(Disk(Absent, Absent), a1) == d1;
    assert Try(d1, a2) == d2;
    assert Try(d2, a3) == d3;
    assert [a1, a2, a3][1..] == [a2, a3];
    assert [a2, a3][1..] == [a3];
    assert Tries(d2, [a3]) == Tries(d3, []);
    assert Tries(d1, [a2, a3]) == d3;
  }

  // ----- The write as it happens -----

  /** `_checkpoint`: overwrite the chosen slots in order. `passed` records every disk on the way. */
  method WriteCheckpoint(slots: array<Slot>, snapshot: Snapshot, scrub: bool) returns (ghost passed: seq<Disk>)
    requires slots.Length == 2
    modifies slots
    ensures passed == Trace(Disk(old(slots[0]), old(slots[1])), snapshot, scrub)
    ensures passed != [] && Disk(slots[0], slots[1]) == Last(passed)
  {
    ghost var d := Disk(slots[0], slots[1]);
    passed := [];
    var generation := 0;
    for i := 0 to 2
      invariant slots[0] == d.first && slots[1] == d.second
      invariant generation == if i == 0 then 0 else if i == 1 then GenerationOf(d.first) else MaxGeneration(d)
    {
      if GenerationOf(slots[i]) > generation {
        generation := GenerationOf(slots[i]);
      }
    }
    var order := if scrub then [0, 1] else [Target(Disk(slots[0], slots[1]))];
    for k := 0 to |order|
      invariant order == if scrub then [0, 1] else [Target(d)]
      invariant generation == MaxGeneration(d) + k
      invariant passed == Trace(d, snapshot, scrub)[..2 * k]
      invariant Disk(slots[0], slots[1]) == if k == 0 then d else passed[2 * k - 1]
    {
      var index := order[k];
      generation := generation + 1;
      slots[index] := Torn;
      passed := passed + [Disk(slots[0], slots[1])];
      slots[index] := Valid(generation, snapshot);
      passed := passed + [Disk(slots[0], slots[1])];
    }
  }
}
