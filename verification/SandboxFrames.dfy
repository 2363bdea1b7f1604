/** The frames of a streamed turn: the incremental check of each new frame, and the order it enforces. */
module SandboxFrames {
  import opened Wrappers

  datatype Budget = Budget(
    maxModelSegments: nat, maxToolRounds: nat, maxToolCalls: nat, maxVisibleSegments: nat, maxFramesPerSegment: nat, maxContractRepairs: nat)

  const MAX_FRAMES := 3

  datatype Part = Part(segment: nat, frame: nat, text: string)

  function SegmentsOf(parts: seq<Part>): set<nat> {
    set i | 0 <= i < |parts| :: parts[i].segment
  }

  /** `_validate_stream_frame`: whether a frame may follow the frames streamed so far. */
  predicate MayFollow(parts: seq<Part>, p: Part, budget: Budget) {
    && |parts| < MAX_FRAMES
    && p.segment < budget.maxModelSegments
    && (p.segment in SegmentsOf(parts) || |SegmentsOf(parts)| < budget.maxVisibleSegments)
    && p.frame < budget.maxFramesPerSegment
    && (if parts == [] then p.frame == 0
        else
          var prior := parts[|parts| - 1];
          p.segment >= prior.segment && p.frame == if p.segment == prior.segment then prior.frame + 1 else 0)
  }

  /** Every frame passed the check when it arrived. */
  predicate Streamed(parts: seq<Part>, budget: Budget) {
    forall i | 0 <= i < |parts| :: MayFollow(parts[..i], parts[i], budget)
  }

  // ----- The order this enforces, seen as a whole -----

  /** How many of the first `n` frames belong to a segment. */
  function CountIn(parts: seq<Part>, n: nat, segment: nat): nat
    requires n <= |parts|
  {
    if n == 0 then 0 else CountIn(parts, n - 1, segment) + if parts[n - 1].segment == segment then 1 else 0
  }

  /** At most three frames, by nondecreasing segment, numbered from zero within each segment, within budget. */
  ghost predicate InOrder(parts: seq<Part>, budget: Budget) {
    && |parts| <= MAX_FRAMES
    && (forall i, j | 0 <= i < j < |parts| :: parts[i].segment <= parts[j].segment)
    && (forall i | 0 <= i < |parts| ::
          parts[i].segment < budget.maxModelSegments && parts[i].frame < budget.maxFramesPerSegment && parts[i].frame == CountIn(parts, i, parts[i].segment))
    && (parts != [] ==> |SegmentsOf(parts)| <= budget.maxVisibleSegments)
  }

  lemma {:induction false} CountPrefix(parts: seq<Part>, n: nat, m: nat, segment: nat)
    requires n <= m <= |parts|
    ensures CountIn(parts[..m], n, segment) == CountIn(parts, n, segment)
  {
    if n > 0 {
      CountPrefix(parts, n - 1, m, segment);
    }
  }

  lemma {:induction false} CountAbsent(parts: seq<Part>, n: nat, segment: nat)
    requires n <= |parts| && forall i | 0 <= i < n :: parts[i].segment != segment
    ensures CountIn(parts, n, segment) == 0
  {
    if n > 0 {
      CountAbsent(parts, n - 1, segment);
    }
  }

  /** In nondecreasing order, the frame before tells how many of its segment came before. */
  lemma CountAfter(parts: seq<Part>, i: nat)
    requires i < |parts| && forall a, b | 0 <= a < b <= i :: parts[a].segment <= parts[b].segment
    requires i > 0 ==> parts[i - 1].frame == CountIn(parts, i - 1, parts[i - 1].segment)
    ensures CountIn(parts, i, parts[i].segment) ==
      if i > 0 && parts[i].segment == parts[i - 1].segment then parts[i - 1].frame + 1 else 0
  {
    if i > 0 && parts[i].segment != parts[i - 1].segment {
      forall a | 0 <= a < i ensures parts[a].segment != parts[i].segment {
        assert parts[a].segment <= parts[i - 1].segment;
      }
      CountAbsent(parts, i, parts[i].segment);
    }
  }

  lemma SegmentsGrow(parts: seq<Part>, i: nat)
    requires i < |parts|
    ensures SegmentsOf(parts[..i + 1]) == SegmentsOf(parts[..i]) + {parts[i].segment}
  {
    forall s ensures s in SegmentsOf(parts[..i + 1]) <==> s in SegmentsOf(parts[..i]) || s == parts[i].segment {
      if s in SegmentsOf(parts[..i + 1]) {
        var k :| 0 <= k < |parts[..i + 1]| && parts[..i + 1][k].segment == s;
        assert k < i ==> parts[..i][k].segment == s;
      }
      if s in SegmentsOf(parts[..i]) {
        var k :| 0 <= k < |parts[..i]| && parts[..i][k].segment == s;
        assert parts[..i + 1][k].segment == s;
      }
      assert parts[..i + 1][i] == parts[i];
    }
  }

  lemma SegmentsUpTo(parts: seq<Part>, i: nat)
    requires i <= |parts|
    ensures SegmentsOf(parts[..i]) <= SegmentsOf(parts) && |SegmentsOf(parts[..i])| <= |SegmentsOf(parts)|
  {
    forall s | s in SegmentsOf(parts[..i]) ensures s in SegmentsOf(parts) {
      var k :| 0 <= k < |parts[..i]| && parts[..i][k].segment == s;
      assert parts[k].segment == s;
    }
    assert SegmentsOf(parts) == SegmentsOf(parts[..i]) + (SegmentsOf(parts) - SegmentsOf(parts[..i]));
  }

  lemma OneMoreInOrder(parts: seq<Part>, budget: Budget)
    requires parts != [] && InOrder(parts[..|parts| - 1], budget) && MayFollow(parts[..|parts| - 1], parts[|parts| - 1], budget)
    ensures InOrder(parts, budget)
  {
    var n := |parts| - 1;
    var before := parts[..n];
    forall i, j | 0 <= i < j < |parts| ensures parts[i].segment <= parts[j].segment {
      assert before[i] == parts[i] && (j < n ==> before[j] == parts[j]);
      if j == n {
        assert before[n - 1] == parts[n - 1] && (i < n - 1 ==> before[i].segment <= before[n - 1].segment);
      }
    }
    forall i | 0 <= i < n ensures parts[i].segment < budget.maxModelSegments && parts[i].frame < budget.maxFramesPerSegment && parts[i].frame == CountIn(parts, i, parts[i].segment) {
      assert before[i] == parts[i];
      CountPrefix(parts, i, n, parts[i].segment);
    }
    CountAfter(parts, n);
    SegmentsGrow(parts, n);
    assert parts[..n + 1] == parts;
    if n > 0 {
      assert before[n - 1] == parts[n - 1];
    }
  }

  lemma InOrderMayFollow(parts: seq<Part>, i: nat, budget: Budget)
    requires InOrder(parts, budget) && i < |parts|
    ensures MayFollow(parts[..i], parts[i], budget)
  {
    CountAfter(parts, i);
    SegmentsGrow(parts, i);
    SegmentsUpTo(parts, i + 1);
    if i > 0 {
      assert parts[..i][i - 1] == parts[i - 1];
    }
  }

  /** Checking each frame as it arrives accepts exactly the frame sequences that are in order as a whole. */
  lemma {:induction false} StreamedExactly(parts: seq<Part>, budget: Budget)
    ensures Streamed(parts, budget) <==> InOrder(parts, budget)
    decreases |parts|
  {
    if parts != [] {
      var n := |parts| - 1;
      StreamedExactly(parts[..n], budget);
      if Streamed(parts, budget) {
        forall i | 0 <= i < n ensures MayFollow(parts[..n][..i], parts[..n][i], budget) {
          assert parts[..n][..i] == parts[..i];
        }
        OneMoreInOrder(parts, budget);
      }
      if InOrder(parts, budget) {
        forall i | 0 <= i < |parts| ensures MayFollow(parts[..i], parts[i], budget) {
          InOrderMayFollow(parts, i, budget);
        }
      }
    }
  }
}
