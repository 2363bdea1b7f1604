/** The cross-check of a completed result: its segments, counts, totals and text against its own frames. */
module SandboxResult {
  import opened Wrappers
  import opened SandboxFrames

  datatype Finish = Complete | ToolBatch | Partial | Failed
  datatype Status = Completed | CompletedPartial | ApprovalNeeded | OtherStatus

  datatype Segment = Segment(index: int, finish: Finish, frameCount: nat, toolCalls: nat)

  datatype Usage = Usage(modelSegments: nat, toolRounds: nat, toolCalls: nat, visibleSegments: nat, contractRepairs: nat)

  /** A completed result whose fields have the right names and types; `planOk` stands for a consistent move plan. */
  datatype TurnResult = TurnResult(
    logicalText: string, parts: seq<Part>, status: Status, planOk: bool, segments: seq<Segment>, usage: Usage)

  // ----- What a sound result is -----

  predicate Batch(s: Segment) {
    s.finish == ToolBatch
  }

  predicate Shows(s: Segment) {
    s.frameCount > 0
  }

  /** The indices of the first `n` segments with a property. */
  function Which(segments: seq<Segment>, n: nat, property: Segment -> bool): set<nat>
    requires n <= |segments|
  {
    set i: nat | i < n && property(segments[i])
  }

  function Calls(segments: seq<Segment>): nat {
    if segments == [] then 0 else segments[0].toolCalls + Calls(segments[1..])
  }

  function Joined(parts: seq<Part>): string {
    if parts == [] then "" else if |parts| == 1 then parts[0].text else parts[0].text + " " + Joined(parts[1..])
  }

  predicate FinishFits(s: Segment) {
    match s.finish
    case ToolBatch => s.toolCalls > 0 && s.frameCount <= 1
    case Failed => s.toolCalls == 0 && s.frameCount == 0
    case _ => s.toolCalls == 0 && s.frameCount > 0
  }

  predicate OnlyBatchesBefore(segments: seq<Segment>) {
    segments != [] && forall i | 0 <= i < |segments| - 1 :: segments[i].finish == ToolBatch
  }

  predicate StatusFits(r: TurnResult) {
    match r.status
    case Completed => OnlyBatchesBefore(r.segments) && r.segments[|r.segments| - 1].finish == Complete
    case CompletedPartial => r.parts != [] && OnlyBatchesBefore(r.segments) && r.segments[|r.segments| - 1].finish != Complete
    case ApprovalNeeded => r.parts == [] && OnlyBatchesBefore(r.segments) && r.segments[|r.segments| - 1].finish == Failed
    case OtherStatus => false
  }

  /** The totals are those recounted from the segments. */
  predicate UsageFits(segments: seq<Segment>, u: Usage, budget: Budget) {
    && u.modelSegments == |segments| <= budget.maxModelSegments
    && u.toolRounds == |Which(segments, |segments|, Batch)| <= budget.maxToolRounds
    && u.toolCalls == Calls(segments) <= budget.maxToolCalls
    && u.visibleSegments == |Which(segments, |segments|, Shows)| <= budget.maxVisibleSegments
    && u.contractRepairs <= budget.maxContractRepairs
  }

  /** The segments are numbered from zero, and each counts exactly its own frames. */
  ghost predicate SegmentsFit(r: TurnResult, budget: Budget) {
    && (forall i | 0 <= i < |r.segments| ::
          var s := r.segments[i];
          s.index == i && s.frameCount == CountIn(r.parts, |r.parts|, i) && s.frameCount <= budget.maxFramesPerSegment && FinishFits(s))
    && (forall k | 0 <= k < |r.parts| :: r.parts[k].segment < |r.segments|)
  }

  ghost predicate Sound(r: TurnResult, budget: Budget, textOk: string -> bool) {
    && (forall k | 0 <= k < |r.parts| :: textOk(r.parts[k].text))
    && InOrder(r.parts, budget) && r.planOk && SegmentsFit(r, budget) && StatusFits(r)
    && UsageFits(r.segments, r.usage, budget) && r.logicalText == Joined(r.parts)
  }

  // ----- The check, loop by loop -----

  method CheckParts(parts: seq<Part>, budget: Budget, textOk: string -> bool) returns (ok: bool)
    ensures ok <==> (forall k | 0 <= k < |parts| :: textOk(parts[k].text)) && InOrder(parts, budget)
  {
    StreamedExactly(parts, budget);
    for k := 0 to |parts|
      invariant forall j | 0 <= j < k :: textOk(parts[j].text)
    {
      if !textOk(parts[k].text) {
        return false;
      }
    }
    hide InOrder;
    for k := 0 to |parts|
      invariant forall j | 0 <= j < k :: MayFollow(parts[..j], parts[j], budget)
    {
      hide MayFollow;
      if !MayFollow(parts[..k], parts[k], budget) {
        return false;
      }
    }
    return true;
  }

  /** The frames of each segment, or a raise for a frame of an unknown segment. */
  method CountFrames(parts: seq<Part>, segments: nat) returns (counts: Result<seq<nat>>)
    ensures counts.Ok? <==> forall k | 0 <= k < |parts| :: parts[k].segment < segments
    ensures counts.Ok? ==> |counts.value| == segments && forall i: nat | i < segments :: counts.value[i] == CountIn(parts, |parts|, i)
  {
    var frameCounts := seq(segments, _ => 0);
    for k := 0 to |parts|
      invariant |frameCounts| == segments
      invariant forall j | 0 <= j < k :: parts[j].segment < segments
      invariant forall i: nat | i < segments :: frameCounts[i] == CountIn(parts, k, i)
    {
      var segment := parts[k].segment;
      if segment >= segments {
        return Raised;
      }
      frameCounts := frameCounts[segment := frameCounts[segment] + 1];
    }
    return Ok(frameCounts);
  }

  lemma OneMoreIndex(segments: seq<Segment>, n: nat, property: Segment -> bool)
    requires n < |segments|
    ensures |Which(segments, n + 1, property)| == |Which(segments, n, property)| + if property(segments[n]) then 1 else 0
  {
    assert Which(segments, n + 1, property) == if property(segments[n]) then Which(segments, n, property) + {n} else Which(segments, n, property);
  }

  lemma {:induction false} CallsAppend(segments: seq<Segment>, s: Segment)
    ensures Calls(segments + [s]) == Calls(segments) + s.toolCalls
  {
    if segments != [] {
      assert (segments + [s])[1..] == segments[1..] + [s];
      CallsAppend(segments[1..], s);
    }
  }

  /** The loop over the segments: their own checks, and the totals they add up to. */
  method SumSegments(segments: seq<Segment>, counts: seq<nat>, budget: Budget) returns (totals: Result<(nat, nat, nat)>)
    requires |counts| == |segments| && forall i | 0 <= i < |segments| :: segments[i].index == i
    ensures totals.Ok? <==> forall i | 0 <= i < |segments| ::
      segments[i].frameCount == counts[i] && segments[i].frameCount <= budget.maxFramesPerSegment && FinishFits(segments[i])
    ensures totals.Ok? ==> totals.value == (|Which(segments, |segments|, Batch)|, Calls(segments), |Which(segments, |segments|, Shows)|)
  {
    var toolRounds, toolCalls, visible := 0, 0, 0;
    assert segments[..0] == [];
    for i := 0 to |segments|
      invariant toolRounds == |Which(segments, i, Batch)| && visible == |Which(segments, i, Shows)| && toolCalls == Calls(segments[..i])
      invariant forall j | 0 <= j < i :: segments[j].frameCount == counts[j] && segments[j].frameCount <= budget.maxFramesPerSegment && FinishFits(segments[j])
    {
      var s := segments[i];
      OneMoreIndex(segments, i, Batch);
      OneMoreIndex(segments, i, Shows);
      CallsAppend(segments[..i], s);
      assert segments[..i + 1] == segments[..i] + [s];
      hide Which;
      hide Calls;
      if s.frameCount != counts[i] || s.frameCount > budget.maxFramesPerSegment {
        return Raised;
      }
      if s.finish == ToolBatch {
        if s.toolCalls == 0 || s.frameCount > 1 {
          return Raised;
        }
        toolRounds := toolRounds + 1;
      } else if s.toolCalls > 0 {
        return Raised;
      }
      if s.finish == Failed && s.frameCount > 0 {
        return Raised;
      }
      if (s.finish == Complete || s.finish == Partial) && s.frameCount == 0 {
        return Raised;
      }
      toolCalls := toolCalls + s.toolCalls;
      visible := visible + if s.frameCount > 0 then 1 else 0;
    }
    assert segments[..|segments|] == segments;
    return Ok((toolRounds, toolCalls, visible));
  }

  /** `_v3_result_parts`: the frames of a sound result, and a raise for any other. */
  method ResultParts(r: TurnResult, budget: Budget, textOk: string -> bool) returns (parts: Result<seq<Part>>)
    ensures parts == if Sound(r, budget, textOk) then Ok(r.parts) else Raised
  {
    hide InOrder;
    hide FinishFits;
    hide StatusFits;
    hide Calls;
    hide Which;
    hide Joined;
    hide CountIn;
    var partsOk := CheckParts(r.parts, budget, textOk);
    if !partsOk || !r.planOk || r.status == OtherStatus {
      OtherStatusNeverFits(r);
      return Raised;
    }
    if exists i | 0 <= i < |r.segments| :: r.segments[i].index != i {
      return Raised;
    }
    var counts := CountFrames(r.parts, |r.segments|);
    if counts.Raised? {
      return Raised;
    }
    var totals := SumSegments(r.segments, counts.value, budget);
    if totals.Raised? {
      return Raised;
    }
    if !StatusFits(r) {
      return Raised;
    }
    var u := r.usage;
    if u.modelSegments != |r.segments| || u.toolRounds != totals.value.0 || u.toolCalls != totals.value.1 || u.visibleSegments != totals.value.2 {
      return Raised;
    }
    if u.modelSegments > budget.maxModelSegments || u.toolRounds > budget.maxToolRounds || u.toolCalls > budget.maxToolCalls
       || u.visibleSegments > budget.maxVisibleSegments || u.contractRepairs > budget.maxContractRepairs {
      return Raised;
    }
    if r.logicalText != Joined(r.parts) {
      return Raised;
    }
    return Ok(r.parts);
  }

  lemma OtherStatusNeverFits(r: TurnResult)
    ensures r.status == OtherStatus ==> !StatusFits(r)
  {
  }

  // ----- What soundness means for the reader of a result -----

  /** A sound result shows text in exactly the segments it calls visible, and never more than three frames. */
  lemma SoundResultsShowTheirFrames(r: TurnResult, budget: Budget, textOk: string -> bool)
    requires Sound(r, budget, textOk)
    ensures |r.parts| <= MAX_FRAMES && r.usage.toolRounds <= |r.segments|
    ensures forall i: nat | i < |r.segments| :: (i in SegmentsOf(r.parts) <==> i in Which(r.segments, |r.segments|, Shows))
    ensures SegmentsOf(r.parts) == Which(r.segments, |r.segments|, Shows) && |SegmentsOf(r.parts)| == r.usage.visibleSegments
    ensures r.status == Completed ==> r.parts != [] && r.parts[|r.parts| - 1].segment == |r.segments| - 1
  {
    forall i: nat | i < |r.segments| ensures i in SegmentsOf(r.parts) <==> r.segments[i].frameCount > 0 {
      CountsItsFrames(r.parts, |r.parts|, i);
    }
    assert SegmentsOf(r.parts) == Which(r.segments, |r.segments|, Shows);
    WhichBound(r.segments, |r.segments|, Batch);
    if r.status == Completed {
      var last := |r.segments| - 1;
      assert FinishFits(r.segments[last]) && last in SegmentsOf(r.parts);
      var k :| 0 <= k < |r.parts| && r.parts[k].segment == last;
      assert r.parts[k].segment <= r.parts[|r.parts| - 1].segment;
    }
  }

  lemma {:induction false} WhichBound(segments: seq<Segment>, n: nat, property: Segment -> bool)
    requires n <= |segments|
    ensures |Which(segments, n, property)| <= n
  {
    if n > 0 {
      WhichBound(segments, n - 1, property);
      OneMoreIndex(segments, n - 1, property);
    }
  }

  lemma {:induction false} CountsItsFrames(parts: seq<Part>, n: nat, segment: nat)
    requires n <= |parts|
    ensures CountIn(parts, n, segment) > 0 <==> exists k | 0 <= k < n :: parts[k].segment == segment
  {
    if n > 0 {
      CountsItsFrames(parts, n - 1, segment);
    }
  }

  /** The totals of a sound result never claim more tool rounds than tool calls. */
  lemma RoundsNeedCalls(r: TurnResult, budget: Budget, textOk: string -> bool)
    requires Sound(r, budget, textOk)
    ensures r.usage.toolRounds <= r.usage.toolCalls
  {
    assert r.segments[..|r.segments|] == r.segments;
    BatchesCall(r.segments, |r.segments|);
  }

  lemma {:induction false} BatchesCall(segments: seq<Segment>, n: nat)
    requires n <= |segments| && forall i | 0 <= i < n :: FinishFits(segments[i])
    ensures |Which(segments, n, Batch)| <= Calls(segments[..n])
  {
    if n > 0 {
      BatchesCall(segments, n - 1);
      OneMoreIndex(segments, n - 1, Batch);
      assert segments[..n] == segments[..n - 1] + [segments[n - 1]];
      CallsAppend(segments[..n - 1], segments[n - 1]);
    }
  }
}
