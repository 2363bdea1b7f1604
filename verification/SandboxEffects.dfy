/** What each line of a stream does to the parser, what a result's status claims, and how text is cut into lines: said of
    fields and characters. */
module SandboxEffects {
  import opened Wrappers
  import opened SandboxFrames
  import opened SandboxResult
  import opened SandboxStream

  // ----- Lines -----

  /** Reactions came with the fourth version of the protocol, stale turns with the fifth; whether the fields of the event
      make sense is another matter. */
  predicate Known(m: Message) {
    && (m.body.Reaction? || m.body == Malformed(ReactionKind) ==> m.version.V4? || m.version.V5?)
    && (m.body.Stale? || m.body == Malformed(StaleKind) ==> m.version.V5?)
  }

  /** The event makes sense after what was streamed: a reaction comes once, before any frame, and in the turn's own name;
      a frame continues the frames; a result is sound and shows just the frames; a stale turn says so first of all. */
  ghost predicate Fits(c: Config, p: Parser, m: Message) {
    match m.body
    case Malformed(_) => false
    case Reaction(binding, _) => (c.binding.None? || c.binding.value == binding) && !p.reacted && p.frames == []
    case Frame(part) => c.textOk(part.text) && MayFollow(p.frames, part, c.budget)
    case Finished(result) => Sound(result, c.budget, c.textOk) && result.parts == p.frames
    case Error(_) => true
    case Stale(_) => m.sequence == 0
  }

  /** One line: noise is passed over; an event of an unknown kind or of another version than the stream's raises; an event
      seen before is passed over if it is the very same and raises otherwise; a new one must be next in sequence, come
      before the end and fit, and is then yielded. */
  lemma LineExactly(c: Config, p: Parser, line: string)
    ensures var r := Process(c, p, line);
      match c.read(line)
      case Noise => r == Ok((p, None))
      case Bad => r.Raised?
      case Event(m) =>
        var p1 := p.(version := Some(m.version));
        if !Known(m) || (p.version.Some? && p.version.value != m.version) then r.Raised?
        else if m.sequence in p.seen then r == if p.seen[m.sequence] == m.canonical then Ok((p1, None)) else Raised
        else if p.terminal || m.sequence != p.expected || !Fits(c, p, m) then r.Raised?
        else r == Ok((Parser(p.expected + 1, Some(m.version), m.body.Finished? || m.body.Error? || m.body.Stale?, p.seen[m.sequence := m.canonical],
                             if m.body.Frame? then p.frames + [m.body.part] else p.frames, p.reacted || m.body.Reaction?), Some(m)))
  {
    hide Sound;
    hide MayFollow;
  }

  /** A frame may follow up to two others, of an earlier segment or as the next of its own, numbered from zero in each, and
      within the budget for segments, segments that show something, and frames of a segment. */
  lemma FrameExactly(parts: seq<Part>, p: Part, budget: Budget)
    ensures MayFollow(parts, p, budget) <==>
      && |parts| <= 2 && p.segment < budget.maxModelSegments && p.frame < budget.maxFramesPerSegment
      && ((exists i | 0 <= i < |parts| :: parts[i].segment == p.segment) || |set i | 0 <= i < |parts| :: parts[i].segment| < budget.maxVisibleSegments)
      && (parts == [] ==> p.frame == 0)
      && (parts != [] ==>
            var last := parts[|parts| - 1];
            (p.segment == last.segment && p.frame == last.frame + 1) || (p.segment > last.segment && p.frame == 0))
  {
    var shown := set i | 0 <= i < |parts| :: parts[i].segment;
    assert shown == SegmentsOf(parts);
  }

  // ----- Results -----

  /** Every segment but the last calls tools. A completed turn ends with a complete one; one completed in part has shown
      something and does not; one that waits for an approval has shown nothing and failed last. */
  lemma StatusExactly(r: TurnResult)
    ensures StatusFits(r) <==>
      && r.segments != [] && (forall i | 0 <= i < |r.segments| - 1 :: r.segments[i].finish.ToolBatch?)
      && var last := r.segments[|r.segments| - 1].finish;
         match r.status
         case Completed => last.Complete?
         case CompletedPartial => r.parts != [] && !last.Complete?
         case ApprovalNeeded => r.parts == [] && last.Failed?
         case OtherStatus => false
  {
  }

  /** A segment that calls tools calls one at least and shows one frame at most; no other calls any, and only a failed one
      shows nothing. */
  lemma FinishExactly(s: Segment)
    ensures FinishFits(s) <==>
      && (s.finish.ToolBatch? <==> s.toolCalls >= 1)
      && (s.finish.ToolBatch? ==> s.frameCount <= 1) && (s.finish.Failed? ==> s.frameCount == 0)
      && (s.finish.Complete? || s.finish.Partial? ==> s.frameCount >= 1)
  {
  }

  /** The text of a result is its frames with a space between them. */
  lemma {:induction false} TextExactly(parts: seq<Part>, last: Part)
    ensures Joined([]) == ""
    ensures Joined(parts + [last]) == if parts == [] then last.text else Joined(parts) + " " + last.text
    decreases |parts|
  {
    if parts == [] {
      assert parts + [last] == [last];
    } else {
      assert (parts + [last])[1..] == parts[1..] + [last] && (parts + [last])[0] == parts[0];
      TextExactly(parts[1..], last);
      if |parts| > 1 {
        assert parts[0].text + " " + (Joined(parts[1..]) + " " + last.text) == parts[0].text + " " + Joined(parts[1..]) + " " + last.text;
      } else {
        assert parts[1..] == [];
      }
    }
  }

  // ----- Cutting text -----

  function Returns(n: nat): string {
    seq(n, _ => '\r')
  }

  /** Stripping a line takes off all the carriage returns at its end, and nothing else. */
  lemma {:induction false} StripExactly(line: string) returns (n: nat)
    ensures line == Strip(line) + Returns(n)
    ensures Strip(line) != "" ==> Strip(line)[|Strip(line)| - 1] != '\r'
    decreases |line|
  {
    if line != "" && line[|line| - 1] == '\r' {
      var k := StripExactly(line[..|line| - 1]);
      n := k + 1;
      assert line == line[..|line| - 1] + "\r";
      assert Returns(n) == Returns(k) + "\r";
    } else {
      n := 0;
      assert line + Returns(0) == line;
    }
  }

  /** Whole lines, each with its newline, and what follows them. */
  function Uncut(raw: seq<string>, rest: string): string {
    if raw == [] then rest else raw[0] + "\n" + Uncut(raw[1..], rest)
  }

  ghost predicate Strips(raw: seq<string>, lines: seq<string>) {
    |raw| == |lines| && forall i | 0 <= i < |raw| :: '\n' !in raw[i] && lines[i] == Strip(raw[i])
  }

  /** Cutting takes a text apart at its newlines, and strips each line. */
  lemma {:induction false} CutExactly(text: string) returns (raw: seq<string>)
    ensures text == Uncut(raw, Cut(text).rest) && '\n' !in Cut(text).rest && Strips(raw, Cut(text).lines)
    decreases |text|
  {
    match Newline(text, 0) {
      case None => raw := [];
      case Some(i) =>
        var first, after := text[..i], text[i + 1..];
        var more := CutExactly(after);
        assert '\n' !in first && text == first + "\n" + after;
        CutAt(text, i);
        raw := [first] + more;
        hide *;
        UncutFirst(first, more, Cut(after).rest);
        StripsFirst(first, more, Cut(after).lines);
    }
  }

  lemma StripsFirst(first: string, more: seq<string>, lines: seq<string>)
    requires '\n' !in first && Strips(more, lines)
    ensures Strips([first] + more, [Strip(first)] + lines)
  {
    hide Strip;
  }

  lemma UncutFirst(first: string, more: seq<string>, rest: string)
    ensures Uncut([first] + more, rest) == first + "\n" + Uncut(more, rest)
  {
    assert ([first] + more)[1..] == more;
  }

  /** The lines of a whole text: those that end in a newline, and what follows them unless it is empty. */
  lemma AllLinesExactly(p: Pieces)
    ensures AllLines(p) == p.lines + if p.rest == "" then [] else [Strip(p.rest)]
  {
  }

  /** A stream is accepted when no line raises and its last event ends it. */
  lemma AcceptedExactly(c: Config, text: string)
    ensures var r := RunLines(c, FRESH, AllLines(Cut(text)));
      Parse(c, text) == Outcome(r.events, r.end.Ok? && r.end.value.terminal)
  {
  }
}
